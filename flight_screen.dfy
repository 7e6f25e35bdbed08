/**
  The screen controller (app/components/FlightScreen.tsx): the five-state flow
  select -> checkin -> in_flight -> completed / cancelled, the handlers and the
  completion effect that move it, the arrival-time label and what is shown in
  each state.
*/
module FlightScreen {
  import opened Flight
  import FlightTimer

  datatype FlightState = Select | Checkin | InFlight | Completed | Cancelled

  datatype FlightOption = FlightOption(
    code: string,
    origin: string,
    destination: string,
    durationSeconds: int,
    originCoord: Coord,
    destinationCoord: Coord)

  /** FLIGHTS */
  const Flights: seq<FlightOption> := [
    FlightOption("FOCUS101", "TPE", "HND", 25 * 60, Coord(121.233, 25.08), Coord(139.78, 35.55)),
    FlightOption("FOCUS202", "ICN", "HKG", 45 * 60, Coord(126.45, 37.46), Coord(114.17, 22.31)),
    FlightOption("FOCUS303", "SFO", "LAX", 15 * 60, Coord(-122.38, 37.62), Coord(-118.4, 33.94))
  ]

  const InitialZoom: real := 6.2

  /** What can move the flow: the four handlers and one run of the completion
      effect with the timer's `isComplete`. */
  datatype Event = SelectFlight | Tear | Cancel | Reset | CompletionCheck(isComplete: bool)

  /** The flow state after an event. */
  function Transition(s: FlightState, e: Event): (r: FlightState)
    ensures e.CompletionCheck? ==> r == s || (s == InFlight && r == Completed)
    ensures !e.CompletionCheck? ==> r != Completed
  {
    match e
    case SelectFlight => Checkin
    case Tear => InFlight
    case Cancel => Cancelled
    case Reset => Select
    case CompletionCheck(isComplete) => if isComplete && s == InFlight then Completed else s
  }

  /** The completion effect moves the flow only from in_flight, and only to
      completed; nothing else reaches completed. */
  lemma CompletedOnlyFromInFlight(s: FlightState, e: Event)
    requires s != Completed && Transition(s, e) == Completed
    ensures s == InFlight && e == CompletionCheck(true)
  {
  }

  /** The running flag the screen passes to the timer: set exactly while the
      flow is `in_flight`, so only in a state where the map is shown. The hook
      itself does not read it. */
  function RunningFlag(s: FlightState): (r: bool)
    ensures r ==> ShowsMap(s)
  {
    s == InFlight
  }

  /** The seconds that `etaLabel` holds: the countdown while in flight, the
      selected flight's whole duration otherwise. */
  function EtaSeconds(s: FlightState, remainingSeconds: real, selected: FlightOption): (r: real)
    ensures RunningFlag(s) ==> r == remainingSeconds
    ensures !RunningFlag(s) ==> r == selected.durationSeconds as real
  {
    if s == InFlight then remainingSeconds else selected.durationSeconds as real
  }

  /** Fed with the timer's countdown for the selected flight, `etaLabel` never
      holds a negative time or more than the flight's duration. */
  lemma EtaWithinDuration(s: FlightState, selected: FlightOption, k: int)
    requires k >= 0 && selected.durationSeconds >= 0
    ensures var eta := EtaSeconds(s, FlightTimer.Remaining(selected.durationSeconds as real, k), selected);
      0.0 <= eta <= selected.durationSeconds as real
  {
  }

  /** While in flight `etaLabel` counts down: after more elapsed seconds it
      never holds more time; in every other state it holds the flight's duration. */
  lemma EtaCountsDown(s: FlightState, selected: FlightOption, k1: int, k2: int)
    requires k1 <= k2
    ensures var total := selected.durationSeconds as real;
      EtaSeconds(s, FlightTimer.Remaining(total, k2), selected) <= EtaSeconds(s, FlightTimer.Remaining(total, k1), selected)
  {
  }

  /** The map appears once the pass is torn: in flight, completed and cancelled,
      that is, in every state past check-in. */
  predicate ShowsMap(s: FlightState): (r: bool)
    ensures r <==> s != Select && s != Checkin
  {
    s == InFlight || s == Completed || s == Cancelled
  }

  datatype Button = EndFlight | NewFlight

  /** The one button of the map header. */
  function HeaderButton(s: FlightState): (b: Button)
    requires ShowsMap(s)
    ensures b == EndFlight <==> RunningFlag(s)
  {
    if s == InFlight then EndFlight else NewFlight
  }

  /** The event the header button fires. */
  function ButtonEvent(b: Button): Event {
    match b
    case EndFlight => Cancel
    case NewFlight => Reset
  }

  /** The header's button cancels the flight while the flow is `in_flight`
      ("End Flight"), and otherwise returns to the route list ("New Flight"). */
  lemma HeaderButtonMeaning(s: FlightState)
    requires ShowsMap(s)
    ensures Transition(s, ButtonEvent(HeaderButton(s))) == if RunningFlag(s) then Cancelled else Select
  {
  }

  /** The state of the component: `flightState`, `selectedFlight`, `zoom`, and
      the calls made to the timer's `reset`, which is not part of this model. */
  class Screen {
    var state: FlightState
    var selected: FlightOption
    var zoom: real
    var timerResets: nat

    ghost predicate Valid()
      reads this
    {
      selected in Flights
    }

    constructor ()
      ensures Valid()
      ensures state == Select && selected == Flights[0] && zoom == InitialZoom && timerResets == 0
    {
      state := Select;
      selected := Flights[0];
      zoom := InitialZoom;
      timerResets := 0;
    }

    /** The running flag passed to the timer. */
    function Running(): bool
      reads this
    {
      RunningFlag(state)
    }

    /** handleSelect: choose a flight and go to check-in. */
    method HandleSelect(flight: FlightOption)
      requires Valid() && flight in Flights
      modifies this
      ensures Valid()
      ensures selected == flight && state == Transition(old(state), SelectFlight)
      ensures zoom == old(zoom) && timerResets == old(timerResets)
    {
      selected := flight;
      state := Checkin;
    }

    /** handleStart (the pass's tear callback): reset the timer, take off. */
    method HandleStart()
      requires Valid()
      modifies this
      ensures Valid()
      ensures state == Transition(old(state), Tear)
      ensures timerResets == old(timerResets) + 1
      ensures selected == old(selected) && zoom == old(zoom)
    {
      timerResets := timerResets + 1;
      state := InFlight;
    }

    /** handleCancel */
    method HandleCancel()
      requires Valid()
      modifies this
      ensures Valid()
      ensures state == Transition(old(state), Cancel)
      ensures selected == old(selected) && zoom == old(zoom) && timerResets == old(timerResets)
    {
      state := Cancelled;
    }

    /** handleReset: back to the route list from any state. */
    method HandleReset()
      requires Valid()
      modifies this
      ensures Valid()
      ensures state == Transition(old(state), Reset)
      ensures selected == old(selected) && zoom == old(zoom) && timerResets == old(timerResets)
    {
      state := Select;
    }

    /** The completion effect, run with the timer's current `isComplete`. */
    method CompletionEffect(isComplete: bool)
      requires Valid()
      modifies this
      ensures Valid()
      ensures state == Transition(old(state), CompletionCheck(isComplete))
      ensures selected == old(selected) && zoom == old(zoom) && timerResets == old(timerResets)
    {
      if isComplete && state == InFlight {
        state := Completed;
      }
    }

    /** The zoom slider. */
    method SetZoom(value: real)
      requires Valid()
      modifies this
      ensures Valid()
      ensures zoom == value
      ensures state == old(state) && selected == old(selected) && timerResets == old(timerResets)
    {
      zoom := value;
    }
  }

  /** One session: pick the second flight, tear the pass, and land. */
  method SessionScenario()
  {
    var screen := new Screen();
    assert !screen.Running();
    screen.HandleSelect(Flights[1]);
    assert screen.state == Checkin && screen.selected.durationSeconds == 2700;
    screen.CompletionEffect(true);
    assert screen.state == Checkin;
    screen.HandleStart();
    assert screen.Running() && screen.timerResets == 1;
    screen.CompletionEffect(false);
    assert screen.state == InFlight;
    screen.CompletionEffect(true);
    assert screen.state == Completed && !screen.Running();
    screen.HandleReset();
    assert screen.state == Select && screen.selected == Flights[1];
  }
}
