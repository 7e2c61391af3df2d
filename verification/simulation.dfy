/** The journey: one immutable snapshot of the whole simulation, and the
    one-hour tick that moves every vehicle in fleet order. */
module Simulation {
  import opened Wrappers
  import opened Domain
  import opened Stock
  import opened Fleet

  datatype Journey = Journey(
    fleetActivity: FleetActivity,
    elapsedTime: Hours,
    deliveryPlan: Plan,
    facilities: Facilities,
    history: seq<Event>,
    deliveryNetwork: Network)

  /** Number of deliveries that reached their final destination. */
  function CountDelivered(h: seq<Event>): nat {
    if h == [] then 0
    else (if h[0].CargoWasDeliveredToDestination? then 1 else 0) + CountDelivered(h[1..])
  }

  /** Number of `AllCargoHasBeenDelivered` events. */
  function CountAllDelivered(h: seq<Event>): nat {
    if h == [] then 0
    else (if h[0].AllCargoHasBeenDelivered? then 1 else 0) + CountAllDelivered(h[1..])
  }

  /** Total of the `TimeElapsed` events. */
  function TimeElapsedSum(h: seq<Event>): Hours {
    if h == [] then 0
    else (if h[0].TimeElapsed? then h[0].time else 0) + TimeElapsedSum(h[1..])
  }

  /** The history ends with the terminal event. */
  predicate EndsDelivered(h: seq<Event>) {
    |h| > 0 && h[|h| - 1].AllCargoHasBeenDelivered?
  }

  /** A journey is completed when its last event is the terminal one, so a
      journey with an empty history is not. */
  predicate IsCompleted(j: Journey)
    ensures j.history == [] ==> !IsCompleted(j)
  {
    EndsDelivered(j.history)
  }

  /** Completion is decided by the last event logged: after appending `es`,
      a journey is completed exactly when the last appended event is the
      terminal one, and appending nothing changes nothing. */
  lemma CompletedAfterAppend(j: Journey, es: seq<Event>)
    ensures IsCompleted(j.(history := j.history + es))
            <==> if es == [] then IsCompleted(j) else es[|es| - 1].AllCargoHasBeenDelivered?
  {
    if es == [] {
      assert j.history + es == j.history;
    }
  }

  /** The parts of a journey a vehicle step never changes, and the history
      only grows. */
  predicate Frame(j: Journey, j': Journey) {
    && j'.elapsedTime == j.elapsedTime
    && j'.deliveryPlan == j.deliveryPlan
    && j'.deliveryNetwork == j.deliveryNetwork
    && j'.facilities.Keys == j.facilities.Keys
    && j.history <= j'.history
  }

  predicate IsWaitingForCargo(o: Option<Activity>) {
    o.Some? && o.value.WaitingForCargo?
  }

  /** The events of a departure, in order: the vehicle stops waiting (if it
      was waiting), the delivery starts (if this is the cargo's first hop),
      the vehicle departs. */
  function DepartureEvents(j: Journey, v: Vehicle, cargo: Cargo, leg: Leg, delivery: CargoDelivery): (evs: seq<Event>)
    ensures 1 <= |evs| <= 3
    ensures evs[|evs| - 1] == VehicleDeparted(cargo, v, leg.from, leg.to, j.elapsedTime, leg.duration)
    ensures evs[0].VehicleStoppedWaitingForCargo? <==> IsWaitingForCargo(Lookup(j.fleetActivity, v))
    ensures (CargoDeliveryStarted(cargo, leg.from, delivery.to, j.elapsedTime) in evs) <==> delivery.from == leg.from
    ensures forall e :: e in evs ==> !e.TimeElapsed? && !e.AllCargoHasBeenDelivered? && !e.CargoWasDeliveredToDestination?
  {
    (if IsWaitingForCargo(Lookup(j.fleetActivity, v)) then [VehicleStoppedWaitingForCargo(v, leg.from)] else [])
    + (if delivery.from == leg.from then [CargoDeliveryStarted(cargo, leg.from, delivery.to, j.elapsedTime)] else [])
    + [VehicleDeparted(cargo, v, leg.from, leg.to, j.elapsedTime, leg.duration)]
  }

  /** A stationary vehicle at `location` either waits for cargo or takes the
      cargo at the head of the queue and sets off along its next leg. */
  function LoadOrWaitForCargo(j: Journey, v: Vehicle, location: Location, current: Activity): (r: Result<Journey, Error>)
    requires location in j.facilities
    ensures r.Success? ==> Frame(j, r.value)
    ensures r.Success? && r.value != j ==> |r.value.history| > |j.history|
    ensures r.Failure? ==> |j.facilities[location]| > 0
  {
    match FirstStockedCargo(j.facilities, location)
    case None =>
      if current.WaitingForCargo? then Success(j)
      else
        Success(j.(fleetActivity := Put(j.fleetActivity, v, WaitingForCargo(location)),
                   history := j.history + [VehicleStartedWaitingForCargo(v, location)]))
    case Some(cargo) =>
      var leg :- NextLeg(j.deliveryNetwork, j.deliveryPlan, cargo, location);
      if leg.requiredType != v.vehicleType then Success(j)
      else
        var delivery := DeliveryOf(j.deliveryPlan, cargo).value;
        Success(j.(fleetActivity := Put(j.fleetActivity, v, DeliveringCargo(cargo, leg.from, leg.to, leg.duration, 0)),
                   history := j.history + DepartureEvents(j, v, cargo, leg, delivery),
                   facilities := LoadCargo(j.facilities, leg.from, cargo)))
  }

  /** The events of an arrival: the vehicle arrives; if this is the cargo's
      destination the delivery completes, and if that was the last delivery
      of the plan everything is delivered. */
  function ArrivalEvents(j: Journey, v: Vehicle, a: Activity, delivery: CargoDelivery): (evs: seq<Event>)
    requires a.DeliveringCargo?
    ensures 1 <= |evs| <= 3
    ensures evs[0] == VehicleArrived(a.cargo, v, a.from, a.to, j.elapsedTime, a.elapsedTime + 1)
    ensures |evs| > 1 <==> a.to == delivery.to
    ensures |evs| > 1 ==> evs[1] == CargoWasDeliveredToDestination(a.cargo, v, delivery.from, delivery.to, j.elapsedTime)
    ensures |evs| > 2 <==> a.to == delivery.to && CountDelivered(j.history) + 1 == |j.deliveryPlan|
    ensures |evs| > 2 ==> evs[2] == AllCargoHasBeenDelivered(j.elapsedTime)
  {
    [VehicleArrived(a.cargo, v, a.from, a.to, j.elapsedTime, a.elapsedTime + 1)]
    + if a.to == delivery.to then
        [CargoWasDeliveredToDestination(a.cargo, v, delivery.from, delivery.to, j.elapsedTime)]
        + (if CountDelivered(j.history) + 1 == |j.deliveryPlan| then [AllCargoHasBeenDelivered(j.elapsedTime)] else [])
      else []
  }

  /** A vehicle on the road drives one more hour; on arrival a carrier unloads
      and turns back, and a returning vehicle acts at once as a stationary one. */
  function ContinueRoute(j: Journey, v: Vehicle, a: Activity): (r: Result<Journey, Error>)
    requires !a.IsStationary()
    requires Total(j.facilities)
    ensures r.Success? ==> Frame(j, r.value)
  {
    var moved := a.ContinueRoute();
    if a.DeliveringCargo? then
      if moved.HasArrived() then
        match DeliveryOf(j.deliveryPlan, a.cargo)
        case None => Failure(NoDeliveryForCargo(a.cargo))
        case Some(delivery) =>
          Success(j.(fleetActivity := Put(j.fleetActivity, v, Returning(a.to, a.from, a.legTime, 0)),
                     history := j.history + ArrivalEvents(j, v, a, delivery),
                     facilities := UnloadCargo(j.facilities, a.to, a.cargo)))
      else
        Success(j.(fleetActivity := Put(j.fleetActivity, v, moved)))
    else
      if moved.HasArrived() then LoadOrWaitForCargo(j, v, a.to, moved)
      else Success(j.(fleetActivity := Put(j.fleetActivity, v, moved)))
  }

  /** One vehicle's move, dispatched on the activity it had when the tick began. */
  function StepVehicle(j: Journey, v: Vehicle, a: Activity): (r: Result<Journey, Error>)
    requires Total(j.facilities)
    ensures r.Success? ==> Frame(j, r.value)
  {
    if a.IsStationary() then LoadOrWaitForCargo(j, v, a.location, a)
    else ContinueRoute(j, v, a)
  }

  /** Moves the vehicles of `entries` one after the other, each seeing the
      journey as the earlier ones left it. */
  function StepAll(j: Journey, entries: seq<Entry>): (r: Result<Journey, Error>)
    requires Total(j.facilities)
    ensures r.Success? ==> Frame(j, r.value)
    decreases |entries|
  {
    if entries == [] then Success(j)
    else
      var next :- StepVehicle(j, entries[0].0, entries[0].1);
      StepAll(next, entries[1..])
  }

  /** Lets `time` hours pass: the one event logged records them, the clock
      advances by what the logged events record, and nothing else changes. */
  function ElapseTimeBy(j: Journey, time: Hours): (r: Journey)
    ensures |r.history| == |j.history| + 1 && r.history[..|j.history|] == j.history
    ensures r.history[|j.history|] == TimeElapsed(time)
    ensures r.elapsedTime - j.elapsedTime == TimeElapsedSum(r.history[|j.history|..])
    ensures r == j.(elapsedTime := r.elapsedTime, history := r.history)
  {
    var r := j.(elapsedTime := j.elapsedTime + time, history := j.history + [TimeElapsed(time)]);
    assert r.history[|j.history|..] == [TimeElapsed(time)];
    r
  }

  /** One tick: every vehicle moves in fleet order, then an hour passes unless
      the history now ends with `AllCargoHasBeenDelivered`. */
  function Proceed(j: Journey): (r: Result<Journey, Error>)
    requires Total(j.facilities)
    ensures r.Success? ==> Total(r.value.facilities)
    ensures r.Success? ==> j.history <= r.value.history
  {
    var moved :- StepAll(j, j.fleetActivity);
    if IsCompleted(moved) then Success(moved) else Success(ElapseTimeBy(moved, 1))
  }
}
