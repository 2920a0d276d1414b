/** The one-time-password step of the hero form
    (src/hooks/heroFormHooks/useHeroOtp.ts, and the same handlers inside
    src/pages/HomePage/HeroSection/HeroForm/index.tsx): a four-slot digit
    buffer with edit, backspace and paste, and a verify step that checks
    completeness and then compares with the mock code. */
module HeroOtp {
  import opened Wrappers
  import opened Text

  const OtpLength: nat := 4
  const MockOtpCode: string := "1234"
  const IncompleteOtp: string := "Please enter the 4-digit OTP."
  const WrongOtp: string := "Incorrect OTP. Please try again."
  const VerifyFailed: string := "Unable to verify the OTP right now. Please try again."

  /** The route state the service page receives. */
  datatype NavigationState = NavigationState(
    selectedBrandSlug: string, selectedBrandName: string,
    selectedModelSlug: string, selectedModelName: string,
    selectedFuelType: string, phone: string)

  datatype PendingNavigation = PendingNavigation(path: string, state: NavigationState)

  datatype VehiclePayload = VehiclePayload(
    brandSlug: string, brandName: string, modelSlug: string, modelName: string, fuelType: string)

  /** How `logCustomerActivity` settles: the session it returns, or a
      rejection (`message` is `None` when the rejection is not an `Error`). */
  datatype ActivityResponse = Logged(sessionToken: string, sessionPhone: string) | Rejected(message: Option<string>)

  /** The OTP state: digits, error, modal flag, verifying flag and the
      navigation waiting for a verified code. */
  datatype OtpState = OtpState(
    digits: seq<string>, error: string, isOpen: bool, isVerifying: bool,
    pending: Option<PendingNavigation>)

  /** What a successful verification hands back: the new session and the
      navigation to perform. */
  datatype Verified = Verified(sessionToken: string, sessionPhone: string, navigation: PendingNavigation)

  /** `Array(OTP_LENGTH).fill('')` */
  const EmptyDigits: seq<string> := ["", "", "", ""]

  const InitialOtp: OtpState := OtpState(EmptyDigits, "", false, false, None)

  /** A slot is empty or holds a single digit. */
  predicate IsSlot(d: string) {
    d == "" || (|d| == 1 && IsDigit(d[0]))
  }

  /** Four slots, each empty or one digit. */
  predicate WellFormed(digits: seq<string>) {
    |digits| == OtpLength && forall i :: 0 <= i < |digits| ==> IsSlot(digits[i])
  }

  /** `value.replace(/\D/g, '').slice(-1)`: the last digit, or `''`. */
  function LastDigit(value: string): (d: string)
    ensures IsSlot(d)
    ensures d == "" <==> forall i :: 0 <= i < |value| ==> !IsDigit(value[i])
  {
    var ds := Filter(value, IsDigit);
    FilterEmpty(value, IsDigit);
    if ds == [] then "" else [ds[|ds| - 1]]
  }

  /** `pasted.replace(/\D/g, '').slice(0, OTP_LENGTH)` */
  function PastedPrefix(pasted: string): (d: string)
    ensures |d| <= OtpLength && forall i :: 0 <= i < |d| ==> IsDigit(d[i])
  {
    var ds := Filter(pasted, IsDigit);
    if |ds| <= OtpLength then ds else ds[..OtpLength]
  }

  /** `Array.from({ length: OTP_LENGTH }, (_, idx) => digits[idx] ?? '')` */
  function PastedDigits(d: string): (r: seq<string>)
    requires forall i :: 0 <= i < |d| ==> IsDigit(d[i])
    ensures WellFormed(r)
  {
    seq(OtpLength, i requires 0 <= i < OtpLength => if i < |d| then [d[i]] else "")
  }

  /** `otpDigits.join('')` */
  function Entered(digits: seq<string>): string {
    Join(digits, "")
  }

  // ---------------------------------------------------------------------
  // The handlers, as steps on `OtpState`

  /** `resetOtpFlow` */
  function Reset(o: OtpState): OtpState {
    InitialOtp
  }

  /** `startOtpFlow` */
  function Start(o: OtpState, navigation: PendingNavigation): OtpState {
    o.(digits := EmptyDigits, error := "", pending := Some(navigation), isOpen := true)
  }

  /** `handleOtpDigitChange`; the inputs only ever pass an index of a slot. */
  function DigitChange(o: OtpState, value: string, index: nat): OtpState
    requires index < |o.digits|
  {
    o.(digits := o.digits[index := LastDigit(value)], error := "")
  }

  /** The Backspace branch of `handleOtpKeyDown`. */
  function Backspace(o: OtpState, index: nat): OtpState
    requires index < |o.digits|
  {
    if o.digits[index] != "" then o
    else if index > 0 then o.(digits := o.digits[index - 1 := ""])
    else o
  }

  /** `handleOtpPaste` */
  function Paste(o: OtpState, pasted: string): OtpState {
    if pasted == "" then o
    else
      var d := PastedPrefix(pasted);
      if d == [] then o else o.(digits := PastedDigits(d), error := "")
  }

  /** `handleOtpVerify`. `payload` is what `getVehiclePayload` gives (only
      consulted once the code is right and a navigation is pending),
      `response` how the activity log settles, and `incompleteVehicle` the
      message for a missing vehicle, which the two versions word
      differently. The verifying flag is raised only while the request is
      awaited and is lowered again on every path. */
  function Verify(o: OtpState, payload: Option<VehiclePayload>, response: ActivityResponse,
                  incompleteVehicle: string): (OtpState, Option<Verified>)
  {
    var entered := Entered(o.digits);
    if |entered| != OtpLength then (o.(error := IncompleteOtp), None)
    else if entered != MockOtpCode then (o.(error := WrongOtp, digits := EmptyDigits), None)
    else if o.pending.None? then (o, None)
    else if payload.None? then (o.(error := incompleteVehicle), None)
    else
      var p := o.pending.value;
      match response
      case Logged(token, phone) =>
        (Reset(o), Some(Verified(token, phone, PendingNavigation(p.path, p.state.(phone := phone)))))
      case Rejected(message) =>
        (o.(error := message.GetOr(VerifyFailed), isVerifying := false), None)
  }

  // ---------------------------------------------------------------------
  // Properties

  lemma FilterEmpty(s: string, p: char -> bool)
    ensures Filter(s, p) == [] <==> forall i :: 0 <= i < |s| ==> !p(s[i])
  {
    if s != [] {
      FilterEmpty(s[1..], p);
      assert forall i :: 1 <= i < |s| ==> s[i] == s[1..][i - 1];
    }
  }

  /** The number of filled slots. */
  function Filled(digits: seq<string>): nat {
    if digits == [] then 0 else (if digits[0] == "" then 0 else 1) + Filled(digits[1..])
  }

  lemma {:induction false} FilledBound(digits: seq<string>)
    ensures Filled(digits) <= |digits|
    ensures Filled(digits) == |digits| <==> forall i :: 0 <= i < |digits| ==> digits[i] != ""
  {
    if digits != [] {
      FilledBound(digits[1..]);
      assert forall i :: 1 <= i < |digits| ==> digits[i] == digits[1..][i - 1];
    }
  }

  /** Joining slots gives one character per filled slot. */
  lemma {:induction false} EnteredLength(digits: seq<string>)
    requires forall i :: 0 <= i < |digits| ==> IsSlot(digits[i])
    ensures |Entered(digits)| == Filled(digits)
  {
    if |digits| >= 2 {
      EnteredLength(digits[1..]);
    }
  }

  /** The entered code has four characters exactly when every slot is filled. */
  lemma EnteredComplete(digits: seq<string>)
    requires WellFormed(digits)
    ensures |Entered(digits)| == OtpLength <==> forall i :: 0 <= i < OtpLength ==> digits[i] != ""
  {
    EnteredLength(digits);
    FilledBound(digits);
  }

  lemma JoinFour(d: seq<string>)
    requires |d| == 4
    ensures Entered(d) == d[0] + d[1] + d[2] + d[3]
  {
    assert d[1..][1..] == d[2..] && d[2..][1..] == d[3..];
    assert Join(d[3..], "") == d[3];
    assert Join(d[2..], "") == d[2] + Join(d[3..], "");
    assert Join(d[1..], "") == d[1] + Join(d[2..], "");
    assert Join(d, "") == d[0] + Join(d[1..], "");
  }

  /** The entered code is the mock code exactly when the slots hold 1, 2, 3, 4. */
  lemma EnteredIsMock(digits: seq<string>)
    requires WellFormed(digits)
    ensures Entered(digits) == MockOtpCode <==> digits == ["1", "2", "3", "4"]
  {
    EnteredComplete(digits);
    JoinFour(digits);
    if Entered(digits) == MockOtpCode {
      assert forall i :: 0 <= i < OtpLength ==> |digits[i]| == 1;
      assert digits[0] == [digits[0][0]] && digits[1] == [digits[1][0]] && digits[2] == [digits[2][0]] && digits[3] == [digits[3][0]];
      assert Entered(digits) == [digits[0][0], digits[1][0], digits[2][0], digits[3][0]];
      assert digits[0][0] == '1' && digits[1][0] == '2' && digits[2][0] == '3' && digits[3][0] == '4';
      assert digits[0] == "1" && digits[1] == "2" && digits[2] == "3" && digits[3] == "4";
    }
  }

  /** Every handler keeps the buffer at four slots of at most one digit. */
  lemma HandlersKeepWellFormed(o: OtpState, navigation: PendingNavigation, value: string, index: nat,
                               pasted: string, payload: Option<VehiclePayload>, response: ActivityResponse,
                               message: string)
    requires WellFormed(o.digits) && index < OtpLength
    ensures WellFormed(Reset(o).digits)
    ensures WellFormed(Start(o, navigation).digits)
    ensures WellFormed(DigitChange(o, value, index).digits)
    ensures WellFormed(Backspace(o, index).digits)
    ensures WellFormed(Paste(o, pasted).digits)
    ensures WellFormed(Verify(o, payload, response, message).0.digits)
  {
  }

  /** `resetOtpFlow` empties the buffer and the error, forgets the pending
      navigation and closes the modal; `startOtpFlow` opens it with the
      navigation pending and nothing entered. */
  lemma ResetAndStartSpec(o: OtpState, navigation: PendingNavigation)
    ensures var r := Reset(o);
      Filled(r.digits) == 0 && |r.digits| == OtpLength && r.error == "" && r.pending.None? && !r.isOpen && !r.isVerifying
    ensures var t := Start(o, navigation);
      Filled(t.digits) == 0 && |t.digits| == OtpLength && t.error == "" && t.pending == Some(navigation) && t.isOpen
      && t.isVerifying == o.isVerifying
  {
    FilledBound(EmptyDigits);
  }

  /** A digit change rewrites only slot `index`: with the last digit of the
      input, or empties it when the input has none; it clears the error. */
  lemma DigitChangeSpec(o: OtpState, value: string, index: nat)
    requires index < |o.digits|
    ensures var t := DigitChange(o, value, index);
      && |t.digits| == |o.digits|
      && (forall j :: 0 <= j < |o.digits| && j != index ==> t.digits[j] == o.digits[j])
      && IsSlot(t.digits[index])
      && (t.digits[index] == "" <==> forall i :: 0 <= i < |value| ==> !IsDigit(value[i]))
      && (t.digits[index] != "" ==> exists i :: 0 <= i < |value| && t.digits[index] == [value[i]]
                                     && forall k :: i < k < |value| ==> !IsDigit(value[k]))
      && t.error == "" && t.pending == o.pending && t.isOpen == o.isOpen
  {
    LastDigitSpec(value);
  }

  /** The last digit of a string is a character of it after which no digit follows. */
  lemma {:induction false} LastDigitSpec(value: string)
    ensures LastDigit(value) != "" ==> exists i :: 0 <= i < |value| && LastDigit(value) == [value[i]]
                                        && forall k :: i < k < |value| ==> !IsDigit(value[k])
  {
    if value != [] {
      var n := |value| - 1;
      var init := value[..n];
      assert value == init + [value[n]];
      FilterSnoc(init, value[n], IsDigit);
      if IsDigit(value[n]) {
        assert LastDigit(value) == [value[n]];
      } else {
        LastDigitSpec(init);
        assert Filter(value, IsDigit) == Filter(init, IsDigit);
        assert LastDigit(value) == LastDigit(init);
        if LastDigit(value) != "" {
          var i :| 0 <= i < |init| && LastDigit(init) == [init[i]] && forall k :: i < k < |init| ==> !IsDigit(init[k]);
          assert value[i] == init[i];
          assert forall k :: i < k < |value| ==> !IsDigit(value[k]) by {
            forall k | i < k < |value| ensures !IsDigit(value[k]) {
              if k < n { assert value[k] == init[k]; }
            }
          }
        }
      }
    }
  }

  lemma {:induction false} FilterSnoc(s: string, c: char, p: char -> bool)
    ensures Filter(s + [c], p) == Filter(s, p) + (if p(c) then [c] else [])
  {
    if s == [] {
      assert [] + [c] == [c];
    } else {
      assert (s + [c])[1..] == s[1..] + [c];
      FilterSnoc(s[1..], c, p);
    }
  }

  /** Backspace on an empty slot past the first empties the previous slot;
      on a filled slot, or on the first, it changes nothing. */
  lemma BackspaceSpec(o: OtpState, index: nat)
    requires index < |o.digits|
    ensures o.digits[index] != "" || index == 0 ==> Backspace(o, index) == o
    ensures o.digits[index] == "" && index > 0 ==>
      Backspace(o, index).digits == o.digits[index - 1 := ""]
      && Backspace(o, index).(digits := o.digits) == o
  {
  }

  /** A paste with a digit fills slots 0.. with the first (at most four)
      pasted digits in order, empties the rest, and clears the error; a paste
      without digits changes nothing. */
  lemma PasteSpec(o: OtpState, pasted: string)
    ensures (forall i :: 0 <= i < |pasted| ==> !IsDigit(pasted[i])) ==> Paste(o, pasted) == o
    ensures (exists i :: 0 <= i < |pasted| && IsDigit(pasted[i])) ==>
      var t := Paste(o, pasted);
      var ds := Filter(pasted, IsDigit);
      var n := if |ds| < OtpLength then |ds| else OtpLength;
      && 1 <= n && WellFormed(t.digits) && t.error == "" && Filled(t.digits) == n
      && (forall i :: 0 <= i < n ==> t.digits[i] == [ds[i]])
      && (forall i :: n <= i < OtpLength ==> t.digits[i] == "")
      && t.pending == o.pending && t.isOpen == o.isOpen
  {
    FilterEmpty(pasted, IsDigit);
    var ds := Filter(pasted, IsDigit);
    if ds != [] {
      assert pasted != "";
      var t := Paste(o, pasted);
      var n := if |ds| < OtpLength then |ds| else OtpLength;
      PrefixFilled(t.digits, n);
    }
  }

  lemma {:induction false} PrefixFilled(digits: seq<string>, n: nat)
    requires n <= |digits|
    requires forall i :: 0 <= i < n ==> digits[i] != ""
    requires forall i :: n <= i < |digits| ==> digits[i] == ""
    ensures Filled(digits) == n
  {
    if digits != [] {
      PrefixFilled(digits[1..], if n == 0 then 0 else n - 1);
    }
  }

  /** Verifying with an empty slot sets the error and keeps everything else. */
  lemma VerifyIncomplete(o: OtpState, payload: Option<VehiclePayload>, response: ActivityResponse, message: string)
    requires WellFormed(o.digits) && exists i :: 0 <= i < OtpLength && o.digits[i] == ""
    ensures Verify(o, payload, response, message) == (o.(error := IncompleteOtp), None)
  {
    EnteredComplete(o.digits);
  }

  /** Verifying a full code other than 1234 sets the error, empties every
      slot and yields no session. */
  lemma VerifyWrong(o: OtpState, payload: Option<VehiclePayload>, response: ActivityResponse, message: string)
    requires WellFormed(o.digits) && (forall i :: 0 <= i < OtpLength ==> o.digits[i] != "")
    requires o.digits != ["1", "2", "3", "4"]
    ensures var (t, verified) := Verify(o, payload, response, message);
      verified.None? && t.error == WrongOtp && t.digits == EmptyDigits && t.pending == o.pending
  {
    EnteredComplete(o.digits);
    EnteredIsMock(o.digits);
  }

  /** A session is obtained only for the code 1234 with a navigation pending
      and a vehicle; it navigates to the pending path with the phone the
      server returned, and the flow is reset. */
  lemma VerifySuccess(o: OtpState, payload: Option<VehiclePayload>, response: ActivityResponse, message: string)
    requires WellFormed(o.digits)
    ensures var (t, verified) := Verify(o, payload, response, message);
      verified.Some? <==> o.digits == ["1", "2", "3", "4"] && o.pending.Some? && payload.Some? && response.Logged?
    ensures var (t, verified) := Verify(o, payload, response, message);
      verified.Some? ==>
        && t == InitialOtp
        && verified.value.sessionPhone == response.sessionPhone
        && verified.value.navigation.path == o.pending.value.path
        && verified.value.navigation.state == o.pending.value.state.(phone := response.sessionPhone)
  {
    EnteredComplete(o.digits);
    EnteredIsMock(o.digits);
  }

  /** The right code with nothing pending changes nothing. */
  lemma VerifyWithoutPending(o: OtpState, payload: Option<VehiclePayload>, response: ActivityResponse, message: string)
    requires o.digits == ["1", "2", "3", "4"] && o.pending.None?
    ensures Verify(o, payload, response, message) == (o, None)
  {
    JoinFour(o.digits);
  }

  // ---------------------------------------------------------------------
  // The buffer object

  /** The OTP fields of the form; `digits` is the four-slot buffer. */
  class OtpFlow {
    const digits: array<string>
    var error: string
    var isOpen: bool
    var isVerifying: bool
    var pending: Option<PendingNavigation>

    predicate Valid() {
      digits.Length == OtpLength
    }

    function State(): OtpState
      reads this, digits
    {
      OtpState(digits[..], error, isOpen, isVerifying, pending)
    }

    constructor ()
      ensures Valid() && State() == InitialOtp && fresh(digits)
    {
      digits := new string[OtpLength](i => "");
      error := "";
      isOpen := false;
      isVerifying := false;
      pending := None;
      new;
      assert digits[..] == EmptyDigits;
    }

    /** Empties every slot. */
    method ClearDigits()
      requires Valid()
      modifies digits
      ensures digits[..] == EmptyDigits
    {
      for i := 0 to digits.Length
        invariant forall j :: 0 <= j < i ==> digits[j] == ""
      {
        digits[i] := "";
      }
      assert digits[..] == EmptyDigits;
    }

    method ResetOtpFlow()
      requires Valid()
      modifies this, digits
      ensures Valid() && State() == Reset(old(State()))
    {
      ClearDigits();
      error := "";
      pending := None;
      isOpen := false;
      isVerifying := false;
    }

    method StartOtpFlow(navigation: PendingNavigation)
      requires Valid()
      modifies this, digits
      ensures Valid() && State() == Start(old(State()), navigation)
    {
      ClearDigits();
      error := "";
      pending := Some(navigation);
      isOpen := true;
    }

    method HandleDigitChange(value: string, index: nat)
      requires Valid() && index < OtpLength
      modifies this, digits
      ensures Valid() && State() == DigitChange(old(State()), value, index)
    {
      var digit := LastDigit(value);
      digits[index] := digit;
      if error != "" {
        error := "";
      }
    }

    method HandleBackspace(index: nat)
      requires Valid() && index < OtpLength
      modifies digits
      ensures Valid() && State() == Backspace(old(State()), index)
    {
      if digits[index] != "" {
        return;
      }
      if index > 0 {
        digits[index - 1] := "";
      }
    }

    method HandlePaste(pasted: string)
      requires Valid()
      modifies this, digits
      ensures Valid() && State() == Paste(old(State()), pasted)
    {
      if pasted == "" {
        return;
      }
      var d := PastedPrefix(pasted);
      if d == [] {
        return;
      }
      for i := 0 to digits.Length
        modifies digits
        invariant forall j :: 0 <= j < i ==> digits[j] == (if j < |d| then [d[j]] else "")
      {
        digits[i] := if i < |d| then [d[i]] else "";
      }
      assert digits[..] == PastedDigits(d);
      error := "";
    }

    method HandleVerify(payload: Option<VehiclePayload>, response: ActivityResponse, incompleteVehicle: string)
      returns (verified: Option<Verified>)
      requires Valid()
      modifies this, digits
      ensures Valid() && (State(), verified) == Verify(old(State()), payload, response, incompleteVehicle)
    {
      var entered := Entered(digits[..]);
      if |entered| != OtpLength {
        error := IncompleteOtp;
        return None;
      }
      if entered != MockOtpCode {
        error := WrongOtp;
        ClearDigits();
        return None;
      }
      if pending.None? {
        return None;
      }
      if payload.None? {
        error := incompleteVehicle;
        return None;
      }
      var p := pending.value;
      match response {
        case Logged(token, phone) =>
          ResetOtpFlow();
          verified := Some(Verified(token, phone, PendingNavigation(p.path, p.state.(phone := phone))));
        case Rejected(message) =>
          error := message.GetOr(VerifyFailed);
          isVerifying := false;
          verified := None;
      }
    }
  }
}
