/** The corrected driver. The driver as written stops only when the history
    ENDS with `AllCargoHasBeenDelivered`, and a vehicle later in fleet order
    can log an event after it in the same tick. In the corrected tick no
    vehicle moves once the terminal event has been logged, so the history
    ends with it and the run returns. */
module Termination {
  import opened Wrappers
  import opened Domain
  import opened Stock
  import opened Fleet
  import opened Simulation
  import opened Invariants
  import opened Delivery

  /** The terminal event has been logged. */
  predicate HasDeliveredAll(j: Journey) {
    CountAllDelivered(j.history) >= 1
  }

  /** Moves the vehicles of `entries` in fleet order, as `StepAll` does, but
      stops as soon as the terminal event has been logged. */
  function StepUntilDelivered(j: Journey, entries: seq<Entry>): (r: Result<Journey, Error>)
    requires Total(j.facilities)
    ensures r.Success? ==> Frame(j, r.value)
    decreases |entries|
  {
    if entries == [] || HasDeliveredAll(j) then Success(j)
    else
      var next :- StepVehicle(j, entries[0].0, entries[0].1);
      StepUntilDelivered(next, entries[1..])
  }

  /** The corrected tick: the vehicles move until the terminal event is
      logged, which ends the tick; a tick without it lets an hour pass. */
  function ProceedUntilDelivered(j: Journey): (r: Result<Journey, Error>)
    requires Total(j.facilities)
    ensures r.Success? ==> Total(r.value.facilities) && j.history <= r.value.history
  {
    var moved :- StepUntilDelivered(j, j.fleetActivity);
    if HasDeliveredAll(moved) then Success(moved) else Success(ElapseTimeBy(moved, 1))
  }

  function RunUntilDelivered(j: Journey, fuel: nat): (r: Result<seq<Event>, Error>)
    requires Total(j.facilities)
    ensures r.Success? ==> CountAllDelivered(r.value) >= 1 && j.history <= r.value
    decreases fuel
  {
    if HasDeliveredAll(j) then Success(j.history)
    else if fuel == 0 then Failure(DidNotConverge)
    else
      var next :- ProceedUntilDelivered(j);
      RunUntilDelivered(next, fuel - 1)
  }

  function DeliverAllCargo(plan: Plan, decls: FleetDeclaration, network: Network, fuel: nat): (r: Result<seq<Event>, Error>)
    ensures r.Success? ==> CountAllDelivered(r.value) >= 1
  {
    RunUntilDelivered(InitialJourney(plan, decls, network), fuel)
  }

  /** Some event of a history with a terminal event is that event. */
  lemma {:induction false} TerminalEventAt(h: seq<Event>) returns (i: nat)
    requires CountAllDelivered(h) >= 1
    ensures i < |h| && h[i].AllCargoHasBeenDelivered?
  {
    if h[0].AllCargoHasBeenDelivered? {
      i := 0;
    } else {
      var k := TerminalEventAt(h[1..]);
      i := k + 1;
    }
  }

  /** Without a terminal event, both ticks agree. */
  lemma ProceedAgrees(j: Journey)
    requires Total(j.facilities)
    requires StepAll(j, j.fleetActivity).Success?
    requires !HasDeliveredAll(StepAll(j, j.fleetActivity).value)
    ensures ProceedUntilDelivered(j) == Proceed(j)
  {
    var moved := StepAll(j, j.fleetActivity).value;
    StepUntilAgrees(j, j.fleetActivity);
    if IsCompleted(moved) {
      EndsDeliveredCounted(moved.history);
    }
  }

  /** While no terminal event is logged, the stopping fold is the fold. */
  lemma {:induction false} StepUntilAgrees(j: Journey, entries: seq<Entry>)
    requires Total(j.facilities)
    requires StepAll(j, entries).Success? && !HasDeliveredAll(StepAll(j, entries).value)
    ensures StepUntilDelivered(j, entries) == StepAll(j, entries)
    decreases |entries|
  {
    if entries != [] {
      var r := StepAll(j, entries).value;
      assert r.history == j.history + r.history[|j.history|..];
      HistoryAppend(j.history, r.history[|j.history|..]);
      var next := StepVehicle(j, entries[0].0, entries[0].1).value;
      StepUntilAgrees(next, entries[1..]);
    }
  }

  /** A stationary vehicle's move logs no terminal event. */
  lemma LoadOrWaitLogsNoTerminal(j: Journey, v: Vehicle, location: Location, current: Activity)
    requires location in j.facilities
    requires LoadOrWaitForCargo(j, v, location, current).Success?
    ensures CountAllDelivered(LoadOrWaitForCargo(j, v, location, current).value.history) == CountAllDelivered(j.history)
  {
    var r := LoadOrWaitForCargo(j, v, location, current).value;
    match FirstStockedCargo(j.facilities, location)
    case None =>
      if !current.WaitingForCargo? {
        var e := VehicleStartedWaitingForCargo(v, location);
        assert r.history == j.history + [e];
        HistoryAppend(j.history, [e]);
        TalliesOfOne(e);
      }
    case Some(cargo) =>
      var leg := NextLeg(j.deliveryNetwork, j.deliveryPlan, cargo, location).value;
      if leg.requiredType == v.vehicleType {
        var evs := DepartureEvents(j, v, cargo, leg, DeliveryOf(j.deliveryPlan, cargo).value);
        assert r.history == j.history + evs;
        HistoryAppend(j.history, evs);
        QuietTallies(evs);
      }
  }

  /** An arrival that logs the terminal event logs it last. */
  lemma ArrivalLogsTerminalLast(j: Journey, v: Vehicle, a: Activity, delivery: CargoDelivery)
    requires a.DeliveringCargo?
    ensures var h' := j.history + ArrivalEvents(j, v, a, delivery);
      CountAllDelivered(h') > CountAllDelivered(j.history) ==> EndsDelivered(h')
  {
    var evs := ArrivalEvents(j, v, a, delivery);
    HistoryAppend(j.history, evs);
    TalliesOfOne(evs[0]);
    if |evs| == 1 {
      assert evs == [evs[0]];
    } else if |evs| == 2 {
      TalliesOfOne(evs[1]);
      assert evs == [evs[0]] + [evs[1]];
      HistoryAppend([evs[0]], [evs[1]]);
    } else {
      assert (j.history + evs)[|j.history + evs| - 1] == evs[2];
    }
  }

  /** A move that logs the first terminal event leaves it last in the history. */
  lemma StepLogsTerminalLast(j: Journey, v: Vehicle, a: Activity)
    requires Total(j.facilities) && !HasDeliveredAll(j)
    requires StepVehicle(j, v, a).Success?
    ensures HasDeliveredAll(StepVehicle(j, v, a).value) ==> IsCompleted(StepVehicle(j, v, a).value)
  {
    if a.IsStationary() {
      LoadOrWaitLogsNoTerminal(j, v, a.location, a);
    } else if !a.ContinueRoute().HasArrived() {
      assert StepVehicle(j, v, a).value.history == j.history;
    } else if a.DeliveringCargo? {
      ArrivalLogsTerminalLast(j, v, a, DeliveryOf(j.deliveryPlan, a.cargo).value);
    } else {
      LoadOrWaitLogsNoTerminal(j, v, a.to, a.ContinueRoute());
    }
  }

  /** When the stopping fold logs the terminal event, it stops with that
      event last. */
  lemma {:induction false} StepUntilEndsDelivered(j: Journey, entries: seq<Entry>)
    requires Total(j.facilities) && !HasDeliveredAll(j)
    requires StepUntilDelivered(j, entries).Success?
    ensures HasDeliveredAll(StepUntilDelivered(j, entries).value) ==> IsCompleted(StepUntilDelivered(j, entries).value)
    decreases |entries|
  {
    if entries != [] {
      StepLogsTerminalLast(j, entries[0].0, entries[0].1);
      var next := StepVehicle(j, entries[0].0, entries[0].1).value;
      assert StepUntilDelivered(j, entries) == StepUntilDelivered(next, entries[1..]);
      if !HasDeliveredAll(next) {
        StepUntilEndsDelivered(next, entries[1..]);
      }
    }
  }

  /** The stopping fold over a suffix of the fleet preserves everything
      `Preserves` lists. */
  lemma {:induction false} StepUntilDeliveredPreserves(j: Journey, entries: seq<Entry>)
    requires Total(j.facilities) && DistinctKeys(j.fleetActivity)
    requires |entries| <= |j.fleetActivity|
    requires entries == j.fleetActivity[|j.fleetActivity| - |entries|..]
    requires StepUntilDelivered(j, entries).Success?
    ensures Preserves(j, StepUntilDelivered(j, entries).value)
    decreases |entries|
  {
    if entries == [] || HasDeliveredAll(j) {
      PreservesItself(j);
    } else {
      var p := |j.fleetActivity| - |entries|;
      assert entries[0] == j.fleetActivity[p];
      StepVehiclePreserves(j, p);
      var next := StepVehicle(j, entries[0].0, entries[0].1).value;
      assert StepUntilDelivered(j, entries) == StepUntilDelivered(next, entries[1..]);
      RestAfterMove(j.fleetActivity, next.fleetActivity, p, entries);
      DistinctByKeys(j.fleetActivity, next.fleetActivity);
      StepUntilDeliveredPreserves(next, entries[1..]);
      PreservesTransitive(j, next, StepUntilDelivered(j, entries).value);
    }
  }

  /** A history whose one terminal event is last has no shorter prefix that
      ends with it. */
  lemma TerminalEndsOnce(h: seq<Event>, h': seq<Event>)
    requires h <= h' && EndsDelivered(h) && EndsDelivered(h') && CountAllDelivered(h') <= 1
    ensures h == h'
  {
    var rest := h'[|h|..];
    assert h' == h + rest;
    HistoryAppend(h, rest);
    EndsDeliveredCounted(h);
    if rest != [] {
      assert EndsDelivered(rest);
      EndsDeliveredCounted(rest);
    }
  }

  /** When the whole fold ends the history with its one terminal event, the
      stopping fold reaches the same history. */
  lemma {:induction false} StepUntilReachesEnd(j: Journey, entries: seq<Entry>)
    requires Total(j.facilities)
    requires HasDeliveredAll(j) ==> IsCompleted(j)
    requires StepAll(j, entries).Success?
    requires IsCompleted(StepAll(j, entries).value) && CountAllDelivered(StepAll(j, entries).value.history) <= 1
    ensures StepUntilDelivered(j, entries).Success?
    ensures StepUntilDelivered(j, entries).value.history == StepAll(j, entries).value.history
    decreases |entries|
  {
    if entries == [] {
    } else if HasDeliveredAll(j) {
      TerminalEndsOnce(j.history, StepAll(j, entries).value.history);
    } else {
      StepLogsTerminalLast(j, entries[0].0, entries[0].1);
      var next := StepVehicle(j, entries[0].0, entries[0].1).value;
      assert StepAll(j, entries) == StepAll(next, entries[1..]);
      StepUntilReachesEnd(next, entries[1..]);
    }
  }

  /** Tick by tick, the corrected driver keeps the journey valid; the tick in
      which the terminal event is logged ends the history with it, stamped
      with the clock at the start of the tick, and lets no time pass. */
  lemma ProceedUntilDeliveredStamps(j: Journey)
    requires Valid(j) && !HasDeliveredAll(j)
    requires ProceedUntilDelivered(j).Success?
    ensures var j' := ProceedUntilDelivered(j).value;
      && Valid(j')
      && (HasDeliveredAll(j') ==>
            && IsCompleted(j')
            && j'.elapsedTime == j.elapsedTime
            && TimeElapsedSum(j'.history) == j.elapsedTime
            && j'.history[|j'.history| - 1] == AllCargoHasBeenDelivered(j.elapsedTime))
  {
    if HasDeliveredAll(ProceedUntilDelivered(j).value) {
      TerminalTickStamps(j);
    } else {
      QuietTickValid(j);
    }
  }

  /** A corrected tick that logs no terminal event keeps the journey valid. */
  lemma QuietTickValid(j: Journey)
    requires Valid(j) && !HasDeliveredAll(j)
    requires ProceedUntilDelivered(j).Success? && !HasDeliveredAll(ProceedUntilDelivered(j).value)
    ensures Valid(ProceedUntilDelivered(j).value)
  {
    var moved := StepUntilDelivered(j, j.fleetActivity).value;
    assert ProceedUntilDelivered(j) == Success(ElapseTimeBy(moved, 1));
    StepUntilDeliveredPreserves(j, j.fleetActivity);
    DistinctByKeys(j.fleetActivity, moved.fleetActivity);
    HourPassesValid(moved);
  }

  /** An hour passing keeps a journey valid and adds no terminal event. */
  lemma HourPassesValid(j: Journey)
    requires Valid(j) && !HasDeliveredAll(j)
    ensures Valid(ElapseTimeBy(j, 1)) && !HasDeliveredAll(ElapseTimeBy(j, 1))
  {
    HourLogsNoTerminal(j);
    HistoryAppend(j.history, [TimeElapsed(1)]);
    TalliesOfOne(TimeElapsed(1));
  }

  lemma HourLogsNoTerminal(j: Journey)
    ensures CountAllDelivered(ElapseTimeBy(j, 1).history) == CountAllDelivered(j.history)
  {
    assert ElapseTimeBy(j, 1).history == j.history + [TimeElapsed(1)];
    HistoryAppend(j.history, [TimeElapsed(1)]);
    TalliesOfOne(TimeElapsed(1));
  }

  /** The tick in which the terminal event is logged. */
  lemma TerminalTickStamps(j: Journey)
    requires Valid(j) && !HasDeliveredAll(j)
    requires ProceedUntilDelivered(j).Success? && HasDeliveredAll(ProceedUntilDelivered(j).value)
    ensures var moved := ProceedUntilDelivered(j).value;
      && Valid(moved)
      && IsCompleted(moved)
      && moved.elapsedTime == j.elapsedTime
      && TimeElapsedSum(moved.history) == j.elapsedTime
      && moved.history[|moved.history| - 1] == AllCargoHasBeenDelivered(j.elapsedTime)
  {
    var moved := StepUntilDelivered(j, j.fleetActivity).value;
    if !HasDeliveredAll(moved) {
      HourLogsNoTerminal(moved);
    }
    assert ProceedUntilDelivered(j) == Success(moved);
    StepUntilDeliveredPreserves(j, j.fleetActivity);
    StepUntilEndsDelivered(j, j.fleetActivity);
    DistinctByKeys(j.fleetActivity, moved.fleetActivity);
    TerminalEventStamped(j, moved);
  }

  /** A terminal event appended within a step is stamped with the clock. */
  lemma TerminalEventStamped(j: Journey, moved: Journey)
    requires Preserves(j, moved) && !HasDeliveredAll(j) && HasDeliveredAll(moved)
    ensures AllCargoHasBeenDelivered(j.elapsedTime) in moved.history
  {
    var appended := moved.history[|j.history|..];
    assert moved.history == j.history + appended;
    HistoryAppend(j.history, appended);
    var k := TerminalEventAt(appended);
    assert moved.history[|j.history| + k] == appended[k];
    assert StampedAt(moved.history[|j.history| + k], j.elapsedTime);
  }

  /** The corrected driver keeps every invariant. What it returns has
      delivered exactly the whole plan and holds one terminal event, last and
      stamped with the sum of the `TimeElapsed` events. */
  lemma {:induction false} RunUntilDeliveredOutcome(j: Journey, fuel: nat)
    requires Valid(j)
    requires HasDeliveredAll(j) ==> IsCompleted(j)
    requires RunUntilDelivered(j, fuel).Success?
    ensures CompleteHistory(RunUntilDelivered(j, fuel).value, |j.deliveryPlan|)
    decreases fuel
  {
    if HasDeliveredAll(j) {
      CompletedOutcome(j);
    } else {
      var next := ProceedUntilDelivered(j).value;
      var m: nat := fuel - 1;
      ProceedUntilDeliveredStamps(j);
      RunUntilDeliveredStep(j, fuel, m, next);
      RunUntilDeliveredOutcome(next, m);
    }
  }

  /** A valid journey whose history ends with the terminal event has
      delivered exactly the whole plan, and that event carries the clock. */
  lemma CompletedOutcome(j: Journey)
    requires Valid(j) && IsCompleted(j)
    ensures CompleteHistory(j.history, |j.deliveryPlan|)
  {
    EndsDeliveredCounted(j.history);
  }

  /** One tick of the corrected driver on a journey short of its last delivery. */
  lemma RunUntilDeliveredStep(j: Journey, fuel: nat, m: nat, next: Journey)
    requires Total(j.facilities) && !HasDeliveredAll(j)
    requires fuel == m + 1 && ProceedUntilDelivered(j) == Success(next)
    ensures RunUntilDelivered(j, fuel) == RunUntilDelivered(next, m)
  {
  }

  lemma DeliverAllCargoOutcome(plan: Plan, decls: FleetDeclaration, network: Network, fuel: nat)
    requires DeliverAllCargo(plan, decls, network, fuel).Success?
    ensures CompleteHistory(DeliverAllCargo(plan, decls, network, fuel).value, |plan|)
  {
    InitialJourneyValid(plan, decls, network);
    RunUntilDeliveredOutcome(InitialJourney(plan, decls, network), fuel);
  }

  /** A tick whose moves log the terminal event but do not end the history
      with it leaves a journey from which the driver as written returns no
      history: it stops on a configuration error or goes round until the fuel
      runs out. */
  lemma LateTerminalNeverFinishes(j: Journey, fuel: nat)
    requires Valid(j)
    requires StepAll(j, j.fleetActivity).Success?
    requires HasDeliveredAll(StepAll(j, j.fleetActivity).value) && !IsCompleted(StepAll(j, j.fleetActivity).value)
    ensures Run(Proceed(j).value, fuel).Failure?
  {
    var moved := StepAll(j, j.fleetActivity).value;
    var next := Proceed(j).value;
    ProceedPreserves(j);
    StepAllPreserves(j, j.fleetActivity);
    assert next == ElapseTimeBy(moved, 1);
    HistoryAppend(moved.history, [TimeElapsed(1)]);
    TalliesOfOne(TimeElapsed(1));
    assert !IsCompleted(next);
    RunNeverFinishes(next, fuel);
  }

  /** Before the terminal event, a tick after which the driver as written
      still returns logs the same history in the corrected driver. The two
      complete together, and a tick that does not complete is the same
      journey in both. */
  lemma ProceedAgreesOnSuccess(j: Journey, fuel: nat)
    requires Valid(j) && !HasDeliveredAll(j)
    requires Proceed(j).Success? && Run(Proceed(j).value, fuel).Success?
    ensures ProceedUntilDelivered(j).Success?
    ensures ProceedUntilDelivered(j).value.history == Proceed(j).value.history
    ensures HasDeliveredAll(ProceedUntilDelivered(j).value) == IsCompleted(Proceed(j).value)
    ensures !IsCompleted(Proceed(j).value) ==> ProceedUntilDelivered(j) == Proceed(j)
  {
    var moved := StepAll(j, j.fleetActivity).value;
    if HasDeliveredAll(moved) && !IsCompleted(moved) {
      LateTerminalNeverFinishes(j, fuel);
      assert false;
    }
    if !HasDeliveredAll(moved) {
      ProceedAgrees(j);
      HistoryAppend(moved.history, [TimeElapsed(1)]);
      TalliesOfOne(TimeElapsed(1));
    } else {
      StepAllPreserves(j, j.fleetActivity);
      StepUntilReachesEnd(j, j.fleetActivity);
      EndsDeliveredCounted(moved.history);
    }
  }

  /** Wherever the driver as written returns, the corrected one returns the
      same history: the correction only changes the outcome where the driver
      as written never returns. */
  lemma {:induction false} RunAgrees(j: Journey, fuel: nat)
    requires Valid(j)
    requires Run(j, fuel).Success?
    ensures RunUntilDelivered(j, fuel) == Run(j, fuel)
    decreases fuel
  {
    if IsCompleted(j) {
      EndsDeliveredCounted(j.history);
    } else if HasDeliveredAll(j) {
      RunNeverFinishes(j, fuel);
      assert false;
    } else {
      var next := Proceed(j).value;
      var m: nat := fuel - 1;
      ProceedAgreesOnSuccess(j, m);
      ProceedPreserves(j);
      if !IsCompleted(next) {
        RunAgrees(next, m);
      }
    }
  }

  lemma DeliverCargoAgrees(plan: Plan, decls: FleetDeclaration, network: Network, fuel: nat)
    requires DeliverCargo(plan, decls, network, fuel).Success?
    ensures DeliverAllCargo(plan, decls, network, fuel) == DeliverCargo(plan, decls, network, fuel)
  {
    InitialJourneyValid(plan, decls, network);
    RunAgrees(InitialJourney(plan, decls, network), fuel);
  }
}
