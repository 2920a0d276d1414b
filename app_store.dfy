/** The application store of src/store/appStore.ts: the current city (only
    an active city of the list can become current), the location modal and
    the cart counter, which never goes below zero. */
module AppStore {
  import opened Wrappers

  datatype CityStatus = Active | Upcoming

  datatype City = City(name: string, slug: string, status: CityStatus)

  datatype AppState = AppState(currentCity: City, cities: seq<City>, isLocationModalOpen: bool, cartItems: int)

  const CityList: seq<City> := [
    City("Kolkata", "kolkata", Active),
    City("Mumbai", "mumbai", Upcoming),
    City("Delhi", "delhi", Upcoming),
    City("Hyderabad", "hyderabad", Upcoming)
  ]

  const InitialApp: AppState := AppState(CityList[0], CityList, false, 0)

  /** `cities.find(item => item.slug === slug)`, as an index. */
  function FindCity(cities: seq<City>, slug: string): (r: Option<nat>)
    ensures r.Some? ==> (r.value < |cities| && cities[r.value].slug == slug
                         && forall i :: 0 <= i < r.value ==> cities[i].slug != slug)
    ensures r.None? ==> forall i :: 0 <= i < |cities| ==> cities[i].slug != slug
  {
    if cities == [] then None
    else if cities[0].slug == slug then Some(0)
    else
      match FindCity(cities[1..], slug)
      case None => None
      case Some(i) => Some(i + 1)
  }

  function Max0(x: int): int { if x < 0 then 0 else x }

  /** `setCity` */
  function SetCity(st: AppState, slug: string): AppState {
    match FindCity(st.cities, slug)
    case None => st
    case Some(i) =>
      if st.cities[i].status == Upcoming then st
      else st.(currentCity := st.cities[i], isLocationModalOpen := false)
  }

  function OpenLocationModal(st: AppState): AppState { st.(isLocationModalOpen := true) }

  function CloseLocationModal(st: AppState): AppState { st.(isLocationModalOpen := false) }

  /** `incrementCart(count = 1)`: an omitted count is one. */
  function IncrementCart(st: AppState, count: Option<int>): AppState {
    st.(cartItems := Max0(st.cartItems + count.GetOr(1)))
  }

  function SetCartItems(st: AppState, count: int): AppState { st.(cartItems := Max0(count)) }

  function ResetCart(st: AppState): AppState { st.(cartItems := 0) }

  /** Every action the store offers. */
  datatype Action =
    | SetCityTo(slug: string)
    | OpenModal
    | CloseModal
    | Increment(amount: Option<int>)
    | SetCart(value: int)
    | Reset

  function Apply(st: AppState, a: Action): AppState {
    match a
    case SetCityTo(slug) => SetCity(st, slug)
    case OpenModal => OpenLocationModal(st)
    case CloseModal => CloseLocationModal(st)
    case Increment(count) => IncrementCart(st, count)
    case SetCart(count) => SetCartItems(st, count)
    case Reset => ResetCart(st)
  }

  function Run(st: AppState, actions: seq<Action>): AppState
    decreases |actions|
  {
    if actions == [] then st else Run(Apply(st, actions[0]), actions[1..])
  }

  /** What the store keeps true: the cart is not negative and the current
      city is an active city of the list. */
  predicate Sound(st: AppState) {
    st.cartItems >= 0 && st.currentCity in st.cities && st.currentCity.status == Active
  }

  // ---------------------------------------------------------------------
  // Properties

  /** The store starts in Kolkata, which is active, with the modal closed
      and an empty cart. */
  lemma InitialSound()
    ensures Sound(InitialApp)
    ensures InitialApp.currentCity.name == "Kolkata" && InitialApp.currentCity.status == Active
    ensures !InitialApp.isLocationModalOpen && InitialApp.cartItems == 0
  {
    assert InitialApp.currentCity == InitialApp.cities[0];
  }

  /** An unknown slug or an upcoming city leaves the state as it is; an
      active city becomes current (the first with that slug) and closes
      the modal, and nothing else changes. */
  lemma SetCitySpec(st: AppState, slug: string)
    ensures (forall i :: 0 <= i < |st.cities| ==> st.cities[i].slug != slug) ==> SetCity(st, slug) == st
    ensures forall i :: 0 <= i < |st.cities| && st.cities[i].slug == slug
                        && (forall j :: 0 <= j < i ==> st.cities[j].slug != slug) ==>
      SetCity(st, slug) ==
        if st.cities[i].status == Upcoming then st
        else st.(currentCity := st.cities[i], isLocationModalOpen := false)
  {
    var found := FindCity(st.cities, slug);
    forall i | 0 <= i < |st.cities| && st.cities[i].slug == slug && (forall j :: 0 <= j < i ==> st.cities[j].slug != slug)
      ensures found == Some(i)
    {
      assert found.Some?;
    }
  }

  /** The counter actions: the new count is the old one plus the count, or
      the given count, or zero, never below zero; nothing else changes. */
  lemma CartSpec(st: AppState, count: int)
    ensures IncrementCart(st, None).cartItems == Max0(st.cartItems + 1)
    ensures IncrementCart(st, Some(count)).cartItems == if st.cartItems + count < 0 then 0 else st.cartItems + count
    ensures SetCartItems(st, count).cartItems == if count < 0 then 0 else count
    ensures ResetCart(st).cartItems == 0
    ensures IncrementCart(st, Some(count)) == st.(cartItems := IncrementCart(st, Some(count)).cartItems)
    ensures SetCartItems(st, count) == st.(cartItems := SetCartItems(st, count).cartItems)
    ensures IncrementCart(st, Some(count)).cartItems >= 0 && SetCartItems(st, count).cartItems >= 0
  {
  }

  /** Opening and closing the modal change only the modal flag. */
  lemma ModalSpec(st: AppState)
    ensures OpenLocationModal(st).isLocationModalOpen && !CloseLocationModal(st).isLocationModalOpen
    ensures OpenLocationModal(st).(isLocationModalOpen := st.isLocationModalOpen) == st
    ensures CloseLocationModal(st).(isLocationModalOpen := st.isLocationModalOpen) == st
  {
  }

  /** Every action keeps the store sound. */
  lemma ApplySound(st: AppState, a: Action)
    requires Sound(st)
    ensures Sound(Apply(st, a))
    ensures Apply(st, a).cities == st.cities
  {
    if a.SetCityTo? {
      var found := FindCity(st.cities, a.slug);
      if found.Some? {
        assert st.cities[found.value] in st.cities;
      }
    }
  }

  /** After any sequence of actions from the initial state the cart is not
      negative and the current city is an active one of the list. */
  lemma {:induction false} RunSound(st: AppState, actions: seq<Action>)
    requires Sound(st)
    ensures Sound(Run(st, actions)) && Run(st, actions).cities == st.cities
    decreases |actions|
  {
    if actions != [] {
      ApplySound(st, actions[0]);
      RunSound(Apply(st, actions[0]), actions[1..]);
    }
  }

  /** The zustand store. */
  class Store {
    var currentCity: City
    var cities: seq<City>
    var isLocationModalOpen: bool
    var cartItems: int

    function State(): AppState
      reads this
    {
      AppState(currentCity, cities, isLocationModalOpen, cartItems)
    }

    constructor()
      ensures State() == InitialApp
    {
      currentCity := CityList[0];
      cities := CityList;
      isLocationModalOpen := false;
      cartItems := 0;
    }

    method SetCityBySlug(slug: string)
      modifies this
      ensures State() == SetCity(old(State()), slug)
    {
      var found := FindCity(cities, slug);
      if found.Some? && cities[found.value].status == Active {
        currentCity := cities[found.value];
        isLocationModalOpen := false;
      }
    }

    method OpenModal()
      modifies this
      ensures State() == OpenLocationModal(old(State()))
    {
      isLocationModalOpen := true;
    }

    method CloseModal()
      modifies this
      ensures State() == CloseLocationModal(old(State()))
    {
      isLocationModalOpen := false;
    }

    method Increment(count: Option<int>)
      modifies this
      ensures State() == IncrementCart(old(State()), count)
    {
      var step := if count.Some? then count.value else 1;
      cartItems := if cartItems + step < 0 then 0 else cartItems + step;
    }

    method SetCart(count: int)
      modifies this
      ensures State() == SetCartItems(old(State()), count)
    {
      cartItems := if count < 0 then 0 else count;
    }

    method ResetCartItems()
      modifies this
      ensures State() == ResetCart(old(State()))
    {
      cartItems := 0;
    }
  }
}
