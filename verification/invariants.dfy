/** What a tick preserves: the fleet's vehicles and their order, the set of
    facilities, the amount of cargo in the system, the clock against the
    history, the single terminal event, and the progress of every vehicle on
    the road. */
module Invariants {
  import opened Wrappers
  import opened Domain
  import opened Stock
  import opened Fleet
  import opened Simulation
  import opened VehicleStep

  lemma {:induction false} HistoryAppend(a: seq<Event>, b: seq<Event>)
    ensures CountDelivered(a + b) == CountDelivered(a) + CountDelivered(b)
    ensures CountAllDelivered(a + b) == CountAllDelivered(a) + CountAllDelivered(b)
    ensures TimeElapsedSum(a + b) == TimeElapsedSum(a) + TimeElapsedSum(b)
  {
    if a != [] {
      assert (a + b)[0] == a[0];
      assert (a + b)[1..] == a[1..] + b;
      HistoryAppend(a[1..], b);
    } else {
      assert a + b == b;
    }
  }

  /** A history that ends with the terminal event contains at least one. */
  lemma EndsDeliveredCounted(h: seq<Event>)
    requires EndsDelivered(h)
    ensures CountAllDelivered(h) >= 1
  {
    assert h == h[..|h| - 1] + [h[|h| - 1]];
    HistoryAppend(h[..|h| - 1], [h[|h| - 1]]);
  }

  /** The event carries the given timestamp, if it carries one at all. */
  predicate StampedAt(e: Event, t: Hours) {
    match e
    case VehicleDeparted(_, _, _, _, time, _) => time == t
    case VehicleArrived(_, _, _, _, time, _) => time == t
    case CargoDeliveryStarted(_, _, _, time) => time == t
    case CargoWasDeliveredToDestination(_, _, _, _, time) => time == t
    case AllCargoHasBeenDelivered(time) => time == t
    case _ => true
  }

  /** The terminal event is emitted once, exactly when the delivered count
      first reaches the plan's size. */
  ghost predicate TerminalTally(h: seq<Event>, n: nat) {
    CountAllDelivered(h) == if n >= 1 && CountDelivered(h) >= n then 1 else 0
  }

  /** A history that ends with the terminal event has delivered the whole plan,
      and its terminal event carries the time `t`. */
  ghost predicate CompletionAt(h: seq<Event>, n: nat, t: Hours) {
    EndsDelivered(h) ==> CountDelivered(h) == n && h[|h| - 1] == AllCargoHasBeenDelivered(t)
  }

  /** What every vehicle move, and so the whole fold over the fleet, keeps. */
  ghost predicate Preserves(j: Journey, j': Journey) {
    && Frame(j, j')
    && Keys(j'.fleetActivity) == Keys(j.fleetActivity)
    && Total(j.facilities) && Total(j'.facilities)
    && TotalStock(j'.facilities) + CountDelivering(j'.fleetActivity) == TotalStock(j.facilities) + CountDelivering(j.fleetActivity)
    && (forall i :: |j.history| <= i < |j'.history| ==> !j'.history[i].TimeElapsed? && StampedAt(j'.history[i], j.elapsedTime))
    && TimeElapsedSum(j'.history) == TimeElapsedSum(j.history)
    && CountDelivered(j'.history) >= CountDelivered(j.history)
    && (TerminalTally(j.history, |j.deliveryPlan|) ==> TerminalTally(j'.history, |j.deliveryPlan|))
    && (CompletionAt(j.history, |j.deliveryPlan|, j.elapsedTime) ==> CompletionAt(j'.history, |j.deliveryPlan|, j.elapsedTime))
    && (LegBounds(j.fleetActivity) && PositiveDurations(j.deliveryNetwork) ==> LegBounds(j'.fleetActivity))
  }

  /** Only the moving vehicle's entry changes, and it stays in its place. */
  ghost predicate OnlyEntryChanged(f: FleetActivity, f': FleetActivity, p: nat) {
    && |f'| == |f| && p < |f|
    && f'[p].0 == f[p].0
    && forall k :: 0 <= k < |f| && k != p ==> f'[k] == f[k]
  }

  lemma OnlyEntryKeys(f: FleetActivity, f': FleetActivity, p: nat)
    requires OnlyEntryChanged(f, f', p)
    ensures Keys(f') == Keys(f)
    ensures f' == f[p := f'[p]]
  {
  }

  lemma {:induction false} QuietTallies(evs: seq<Event>)
    requires forall e :: e in evs ==> !e.TimeElapsed? && !e.AllCargoHasBeenDelivered? && !e.CargoWasDeliveredToDestination?
    ensures TimeElapsedSum(evs) == 0 && CountDelivered(evs) == 0 && CountAllDelivered(evs) == 0
  {
    if evs != [] {
      assert evs[0] in evs;
      assert forall e :: e in evs[1..] ==> e in evs;
      QuietTallies(evs[1..]);
    }
  }

  /** Appending events that neither deliver nor let time pass changes none
      of the tallies, and the history does not end with the terminal event. */
  lemma QuietAppend(h: seq<Event>, evs: seq<Event>, n: nat, t: Hours)
    requires evs != []
    requires forall e :: e in evs ==> !e.TimeElapsed? && !e.AllCargoHasBeenDelivered? && !e.CargoWasDeliveredToDestination?
    ensures CountDelivered(h + evs) == CountDelivered(h)
    ensures TimeElapsedSum(h + evs) == TimeElapsedSum(h)
    ensures TerminalTally(h, n) ==> TerminalTally(h + evs, n)
    ensures CompletionAt(h + evs, n, t)
  {
    QuietTallies(evs);
    HistoryAppend(h, evs);
    assert (h + evs)[|h + evs| - 1] == evs[|evs| - 1];
    assert evs[|evs| - 1] in evs;
  }

  /** Rewriting the moving vehicle's entry in place, appending `evs` and
      updating the facilities preserves everything `Preserves` lists, given
      the facts each case of a move establishes. */
  lemma EntryUpdatePreserves(j: Journey, j': Journey, p: nat, a': Activity, evs: seq<Event>)
    requires Total(j.facilities) && DistinctKeys(j.fleetActivity) && p < |j.fleetActivity|
    requires j'.fleetActivity == j.fleetActivity[p := (j.fleetActivity[p].0, a')]
    requires j'.history == j.history + evs
    requires j'.elapsedTime == j.elapsedTime && j'.deliveryPlan == j.deliveryPlan && j'.deliveryNetwork == j.deliveryNetwork
    requires j'.facilities.Keys == j.facilities.Keys
    requires Total(j'.facilities)
    requires TotalStock(j'.facilities) + (if a'.DeliveringCargo? then 1 else 0)
             == TotalStock(j.facilities) + (if j.fleetActivity[p].1.DeliveringCargo? then 1 else 0)
    requires forall e :: e in evs ==> !e.TimeElapsed? && StampedAt(e, j.elapsedTime)
    requires CountDelivered(j'.history) >= CountDelivered(j.history)
    requires TimeElapsedSum(j'.history) == TimeElapsedSum(j.history)
    requires TerminalTally(j.history, |j.deliveryPlan|) ==> TerminalTally(j'.history, |j.deliveryPlan|)
    requires CompletionAt(j.history, |j.deliveryPlan|, j.elapsedTime) ==> CompletionAt(j'.history, |j.deliveryPlan|, j.elapsedTime)
    requires LegBounds(j.fleetActivity) && PositiveDurations(j.deliveryNetwork) && !a'.IsStationary()
             ==> 0 <= a'.elapsedTime < a'.legTime
    ensures Preserves(j, j') && OnlyEntryChanged(j.fleetActivity, j'.fleetActivity, p)
  {
    var f := j.fleetActivity;
    CountDeliveringUpdate(f, p, (f[p].0, a'));
    assert Keys(j'.fleetActivity) == Keys(f);
    forall i | |j.history| <= i < |j'.history|
      ensures !j'.history[i].TimeElapsed? && StampedAt(j'.history[i], j.elapsedTime)
    {
      assert j'.history[i] == evs[i - |j.history|];
      assert evs[i - |j.history|] in evs;
    }
  }

  /** A stationary vehicle's move (including a returning vehicle that has just
      arrived) preserves everything `Preserves` lists. */
  lemma LoadOrWaitPreserves(j: Journey, p: nat, location: Location, current: Activity)
    requires Total(j.facilities) && DistinctKeys(j.fleetActivity) && p < |j.fleetActivity|
    requires !j.fleetActivity[p].1.DeliveringCargo?
    requires LoadOrWaitForCargo(j, j.fleetActivity[p].0, location, current).Success?
    ensures var j' := LoadOrWaitForCargo(j, j.fleetActivity[p].0, location, current).value;
      Preserves(j, j') && (j' == j || OnlyEntryChanged(j.fleetActivity, j'.fleetActivity, p))
  {
    var v := j.fleetActivity[p].0;
    if |j.facilities[location]| == 0 {
      if !current.WaitingForCargo? {
        StartWaitingPreserves(j, p, location, current);
      }
    } else {
      var cargo := j.facilities[location][0];
      var leg := NextLeg(j.deliveryNetwork, j.deliveryPlan, cargo, location).value;
      if leg.requiredType == v.vehicleType {
        DeparturePreserves(j, p, location, current);
      }
    }
  }

  lemma StartWaitingPreserves(j: Journey, p: nat, location: Location, current: Activity)
    requires Total(j.facilities) && DistinctKeys(j.fleetActivity) && p < |j.fleetActivity|
    requires !j.fleetActivity[p].1.DeliveringCargo?
    requires |j.facilities[location]| == 0 && !current.WaitingForCargo?
    ensures LoadOrWaitForCargo(j, j.fleetActivity[p].0, location, current).Success?
    ensures var j' := LoadOrWaitForCargo(j, j.fleetActivity[p].0, location, current).value;
      Preserves(j, j') && OnlyEntryChanged(j.fleetActivity, j'.fleetActivity, p)
  {
    var v := j.fleetActivity[p].0;
    var evs := [VehicleStartedWaitingForCargo(v, location)];
    var j' := j.(fleetActivity := Put(j.fleetActivity, v, WaitingForCargo(location)), history := j.history + evs);
    assert LoadOrWaitForCargo(j, v, location, current) == Success(j');
    PutInPlace(j.fleetActivity, p, WaitingForCargo(location));
    QuietAppend(j.history, evs, |j.deliveryPlan|, j.elapsedTime);
    EntryUpdatePreserves(j, j', p, WaitingForCargo(location), evs);
  }

  lemma DeparturePreserves(j: Journey, p: nat, location: Location, current: Activity)
    requires Total(j.facilities) && DistinctKeys(j.fleetActivity) && p < |j.fleetActivity|
    requires !j.fleetActivity[p].1.DeliveringCargo?
    requires |j.facilities[location]| > 0
    requires NextLeg(j.deliveryNetwork, j.deliveryPlan, j.facilities[location][0], location).Success?
    requires NextLeg(j.deliveryNetwork, j.deliveryPlan, j.facilities[location][0], location).value.requiredType == j.fleetActivity[p].0.vehicleType
    ensures LoadOrWaitForCargo(j, j.fleetActivity[p].0, location, current).Success?
    ensures var j' := LoadOrWaitForCargo(j, j.fleetActivity[p].0, location, current).value;
      Preserves(j, j') && OnlyEntryChanged(j.fleetActivity, j'.fleetActivity, p)
  {
    var v := j.fleetActivity[p].0;
    var cargo := j.facilities[location][0];
    var leg := NextLeg(j.deliveryNetwork, j.deliveryPlan, cargo, location).value;
    var delivery := DeliveryOf(j.deliveryPlan, cargo).value;
    var a' := DeliveringCargo(cargo, leg.from, leg.to, leg.duration, 0);
    var evs := DepartureEvents(j, v, cargo, leg, delivery);
    var j' := j.(fleetActivity := Put(j.fleetActivity, v, a'), history := j.history + evs,
                 facilities := LoadCargo(j.facilities, location, cargo));
    assert leg.from == location;
    assert FirstStockedCargo(j.facilities, location) == Some(cargo);
    assert LoadOrWaitForCargo(j, v, location, current) == Success(j');
    var route := RouteForCargo(j.deliveryNetwork, j.deliveryPlan, cargo).value;
    assert route in j.deliveryNetwork && leg in route.legs;
    DepartureUpdatePreserves(j, p, cargo, leg, delivery, j');
  }

  /** Every departure event carries the time of the departure, if any. */
  lemma DepartureStamped(j: Journey, v: Vehicle, cargo: Cargo, leg: Leg, delivery: CargoDelivery)
    ensures forall e :: e in DepartureEvents(j, v, cargo, leg, delivery) ==> StampedAt(e, j.elapsedTime)
  {
  }

  lemma ArrivalStamped(j: Journey, v: Vehicle, a: Activity, delivery: CargoDelivery)
    requires a.DeliveringCargo?
    ensures forall e :: e in ArrivalEvents(j, v, a, delivery) ==> !e.TimeElapsed? && StampedAt(e, j.elapsedTime)
  {
    var evs := ArrivalEvents(j, v, a, delivery);
    forall e | e in evs
      ensures !e.TimeElapsed? && StampedAt(e, j.elapsedTime)
    {
      var i :| 0 <= i < |evs| && evs[i] == e;
    }
  }

  /** The journey after a departure, given its shape. */
  lemma DepartureUpdatePreserves(j: Journey, p: nat, cargo: Cargo, leg: Leg, delivery: CargoDelivery, j': Journey)
    requires Total(j.facilities) && DistinctKeys(j.fleetActivity) && p < |j.fleetActivity|
    requires !j.fleetActivity[p].1.DeliveringCargo?
    requires cargo in j.facilities[leg.from]
    requires PositiveDurations(j.deliveryNetwork) ==> leg.duration >= 1
    requires j' == j.(fleetActivity := Put(j.fleetActivity, j.fleetActivity[p].0, DeliveringCargo(cargo, leg.from, leg.to, leg.duration, 0)),
                      history := j.history + DepartureEvents(j, j.fleetActivity[p].0, cargo, leg, delivery),
                      facilities := LoadCargo(j.facilities, leg.from, cargo))
    ensures Preserves(j, j') && OnlyEntryChanged(j.fleetActivity, j'.fleetActivity, p)
  {
    var v := j.fleetActivity[p].0;
    var a' := DeliveringCargo(cargo, leg.from, leg.to, leg.duration, 0);
    var evs := DepartureEvents(j, v, cargo, leg, delivery);
    PutInPlace(j.fleetActivity, p, a');
    LoadRemovesOne(j.facilities, leg.from, cargo);
    QuietAppend(j.history, evs, |j.deliveryPlan|, j.elapsedTime);
    DepartureStamped(j, v, cargo, leg, delivery);
    EntryUpdatePreserves(j, j', p, a', evs);
  }

  lemma TalliesOfOne(e: Event)
    ensures CountDelivered([e]) == (if e.CargoWasDeliveredToDestination? then 1 else 0)
    ensures CountAllDelivered([e]) == (if e.AllCargoHasBeenDelivered? then 1 else 0)
    ensures TimeElapsedSum([e]) == (if e.TimeElapsed? then e.time else 0)
  {
    assert [e][1..] == [];
  }

  /** The terminal-event tally survives an arrival. */
  lemma ArrivalTally(j: Journey, v: Vehicle, a: Activity, delivery: CargoDelivery)
    requires a.DeliveringCargo?
    ensures var h' := j.history + ArrivalEvents(j, v, a, delivery);
      && TimeElapsedSum(h') == TimeElapsedSum(j.history)
      && CountDelivered(h') == CountDelivered(j.history) + (if a.to == delivery.to then 1 else 0)
      && (TerminalTally(j.history, |j.deliveryPlan|) ==> TerminalTally(h', |j.deliveryPlan|))
      && CompletionAt(h', |j.deliveryPlan|, j.elapsedTime)
  {
    var evs := ArrivalEvents(j, v, a, delivery);
    HistoryAppend(j.history, evs);
    var h' := j.history + evs;
    assert h'[|h'| - 1] == evs[|evs| - 1];
    TalliesOfOne(evs[0]);
    if |evs| == 1 {
      assert evs == [evs[0]];
    } else {
      TalliesOfOne(evs[1]);
      if |evs| == 2 {
        assert evs == [evs[0]] + [evs[1]];
        HistoryAppend([evs[0]], [evs[1]]);
      } else {
        TalliesOfOne(evs[2]);
        assert evs == [evs[0]] + [evs[1]] + [evs[2]];
        HistoryAppend([evs[0]], [evs[1]]);
        HistoryAppend([evs[0]] + [evs[1]], [evs[2]]);
      }
    }
  }

  lemma ArrivalPreserves(j: Journey, p: nat)
    requires Total(j.facilities) && DistinctKeys(j.fleetActivity) && p < |j.fleetActivity|
    requires j.fleetActivity[p].1.DeliveringCargo? && j.fleetActivity[p].1.RemainingTime() == 1
    requires DeliveryOf(j.deliveryPlan, j.fleetActivity[p].1.cargo).Some?
    ensures ContinueRoute(j, j.fleetActivity[p].0, j.fleetActivity[p].1).Success?
    ensures var j' := ContinueRoute(j, j.fleetActivity[p].0, j.fleetActivity[p].1).value;
      Preserves(j, j') && OnlyEntryChanged(j.fleetActivity, j'.fleetActivity, p)
  {
    var (v, a) := j.fleetActivity[p];
    var delivery := DeliveryOf(j.deliveryPlan, a.cargo).value;
    var a' := Returning(a.to, a.from, a.legTime, 0);
    var evs := ArrivalEvents(j, v, a, delivery);
    var j' := j.(fleetActivity := Put(j.fleetActivity, v, a'), history := j.history + evs,
                 facilities := UnloadCargo(j.facilities, a.to, a.cargo));
    assert ContinueRoute(j, v, a) == Success(j');
    PutInPlace(j.fleetActivity, p, a');
    UnloadAddsOne(j.facilities, a.to, a.cargo);
    ArrivalTally(j, v, a, delivery);
    if LegBounds(j.fleetActivity) {
      assert 0 <= j.fleetActivity[p].1.elapsedTime < j.fleetActivity[p].1.legTime;
    }
    ArrivalStamped(j, v, a, delivery);
    EntryUpdatePreserves(j, j', p, a', evs);
  }

  lemma DrivingOnPreserves(j: Journey, p: nat)
    requires Total(j.facilities) && DistinctKeys(j.fleetActivity) && p < |j.fleetActivity|
    requires !j.fleetActivity[p].1.IsStationary() && j.fleetActivity[p].1.RemainingTime() != 1
    ensures ContinueRoute(j, j.fleetActivity[p].0, j.fleetActivity[p].1).Success?
    ensures var j' := ContinueRoute(j, j.fleetActivity[p].0, j.fleetActivity[p].1).value;
      Preserves(j, j') && OnlyEntryChanged(j.fleetActivity, j'.fleetActivity, p)
  {
    var (v, a) := j.fleetActivity[p];
    var moved := a.ContinueRoute();
    var j' := j.(fleetActivity := Put(j.fleetActivity, v, moved));
    assert ContinueRoute(j, v, a) == Success(j');
    PutInPlace(j.fleetActivity, p, moved);
    assert j'.history == j.history + [];
    if LegBounds(j.fleetActivity) {
      assert 0 <= j.fleetActivity[p].1.elapsedTime < j.fleetActivity[p].1.legTime;
    }
    EntryUpdatePreserves(j, j', p, moved, []);
  }

  /** Any one vehicle's move, dispatched on its entry at position `p`,
      preserves everything `Preserves` lists and changes only that entry. */
  lemma StepVehiclePreserves(j: Journey, p: nat)
    requires Total(j.facilities) && DistinctKeys(j.fleetActivity) && p < |j.fleetActivity|
    requires StepVehicle(j, j.fleetActivity[p].0, j.fleetActivity[p].1).Success?
    ensures var j' := StepVehicle(j, j.fleetActivity[p].0, j.fleetActivity[p].1).value;
      Preserves(j, j') && (j' == j || OnlyEntryChanged(j.fleetActivity, j'.fleetActivity, p))
  {
    var (v, a) := j.fleetActivity[p];
    if a.IsStationary() {
      LoadOrWaitPreserves(j, p, a.location, a);
    } else if a.RemainingTime() != 1 {
      DrivingOnPreserves(j, p);
    } else if a.DeliveringCargo? {
      ArrivalPreserves(j, p);
    } else {
      assert StepVehicle(j, v, a) == LoadOrWaitForCargo(j, v, a.to, a.ContinueRoute());
      LoadOrWaitPreserves(j, p, a.to, a.ContinueRoute());
    }
  }

  /** The entries still to move after the one at `p` are the new fleet's
      entries after `p`. */
  lemma RestAfterMove(f: FleetActivity, f': FleetActivity, p: nat, entries: seq<Entry>)
    requires p < |f| && entries == f[p..]
    requires f' == f || OnlyEntryChanged(f, f', p)
    ensures entries[1..] == f'[|f'| - |entries[1..]|..]
  {
    if f' != f {
      assert f'[p + 1..] == f[p + 1..];
    }
  }

  lemma PreservesTransitive(j1: Journey, j2: Journey, j3: Journey)
    requires Preserves(j1, j2) && Preserves(j2, j3)
    ensures Preserves(j1, j3)
  {
    forall i | |j1.history| <= i < |j3.history|
      ensures !j3.history[i].TimeElapsed? && StampedAt(j3.history[i], j1.elapsedTime)
    {
      if i < |j2.history| {
        assert j3.history[i] == j2.history[i];
      }
    }
  }

  /** Moving the vehicles of a suffix of the fleet, each in its place and in
      fleet order, preserves everything `Preserves` lists. */
  lemma {:induction false} StepAllPreserves(j: Journey, entries: seq<Entry>)
    requires Total(j.facilities) && DistinctKeys(j.fleetActivity)
    requires |entries| <= |j.fleetActivity|
    requires entries == j.fleetActivity[|j.fleetActivity| - |entries|..]
    requires StepAll(j, entries).Success?
    ensures Preserves(j, StepAll(j, entries).value)
    decreases |entries|
  {
    if entries == [] {
      PreservesItself(j);
    } else {
      var p := |j.fleetActivity| - |entries|;
      assert entries[0] == j.fleetActivity[p];
      StepVehiclePreserves(j, p);
      var next := StepVehicle(j, entries[0].0, entries[0].1).value;
      assert StepAll(j, entries) == StepAll(next, entries[1..]);
      RestAfterMove(j.fleetActivity, next.fleetActivity, p, entries);
      DistinctByKeys(j.fleetActivity, next.fleetActivity);
      StepAllPreserves(next, entries[1..]);
      PreservesTransitive(j, next, StepAll(j, entries).value);
    }
  }

  lemma PreservesItself(j: Journey)
    requires Total(j.facilities)
    ensures Preserves(j, j)
  {
  }

  /** The invariant of every journey the driver produces. */
  ghost predicate Valid(j: Journey) {
    && DistinctKeys(j.fleetActivity)
    && Total(j.facilities)
    && TotalStock(j.facilities) + CountDelivering(j.fleetActivity) == |j.deliveryPlan|
    && j.elapsedTime == TimeElapsedSum(j.history)
    && TerminalTally(j.history, |j.deliveryPlan|)
    && CompletionAt(j.history, |j.deliveryPlan|, j.elapsedTime)
  }

  lemma DistinctByKeys(f: FleetActivity, f': FleetActivity)
    requires DistinctKeys(f) && Keys(f') == Keys(f)
    ensures DistinctKeys(f')
  {
    forall i, k | 0 <= i < k < |f'|
      ensures f'[i].0 != f'[k].0
    {
      assert f'[i].0 == Keys(f')[i] && f'[k].0 == Keys(f')[k];
    }
  }

  /** A tick keeps the fleet's vehicles in their order, every facility, the
      plan and network, and the amount of cargo in the system; it only appends
      to the history; the clock stays equal to the sum of `TimeElapsed` events;
      the terminal event stays unique and, when last, carries the clock. */
  lemma ProceedPreserves(j: Journey)
    requires Valid(j)
    requires Proceed(j).Success?
    ensures var j' := Proceed(j).value;
      && Valid(j')
      && Keys(j'.fleetActivity) == Keys(j.fleetActivity)
      && j'.facilities.Keys == j.facilities.Keys
      && j'.deliveryPlan == j.deliveryPlan && j'.deliveryNetwork == j.deliveryNetwork
      && j.history <= j'.history
  {
    var moved := StepAll(j, j.fleetActivity).value;
    StepAllPreserves(j, j.fleetActivity);
    DistinctByKeys(j.fleetActivity, moved.fleetActivity);
    if !IsCompleted(moved) {
      var j' := ElapseTimeBy(moved, 1);
      HistoryAppend(moved.history, [TimeElapsed(1)]);
      assert j'.history == moved.history + [TimeElapsed(1)];
    }
  }

  /** Vehicles on the road stay strictly inside their leg across a tick, when
      every leg of the network lasts at least an hour. */
  lemma ProceedKeepsLegBounds(j: Journey)
    requires Valid(j) && LegBounds(j.fleetActivity) && PositiveDurations(j.deliveryNetwork)
    requires Proceed(j).Success?
    ensures LegBounds(Proceed(j).value.fleetActivity)
  {
    StepAllPreserves(j, j.fleetActivity);
  }

  /** If the vehicles' moves end the history with the terminal event, no time
      passes; otherwise the clock advances by one and exactly one
      `TimeElapsed(1)` is appended, as the last event. Every other event of the
      tick is stamped with the time at its start. */
  lemma ProceedTime(j: Journey)
    requires Valid(j)
    requires Proceed(j).Success?
    ensures var j' := Proceed(j).value;
      && (IsCompleted(j') ==> j'.elapsedTime == j.elapsedTime)
      && (!IsCompleted(j') ==>
            && j'.elapsedTime == j.elapsedTime + 1
            && j'.history[|j'.history| - 1] == TimeElapsed(1)
            && forall i :: |j.history| <= i < |j'.history| - 1 ==> !j'.history[i].TimeElapsed?)
      && forall i :: |j.history| <= i < |j'.history| && !j'.history[i].TimeElapsed? ==> StampedAt(j'.history[i], j.elapsedTime)
  {
    StepAllPreserves(j, j.fleetActivity);
  }

  /** Once the plan's delivered count has been reached without the history
      ending in the terminal event — a vehicle later in fleet order logged an
      event after it in the same tick — no later tick can end the history with
      it again. */
  lemma ProceedNeverCompletesLate(j: Journey)
    requires Valid(j) && !IsCompleted(j)
    requires CountDelivered(j.history) >= |j.deliveryPlan|
    requires Proceed(j).Success?
    ensures !IsCompleted(Proceed(j).value)
    ensures CountDelivered(Proceed(j).value.history) >= |j.deliveryPlan|
  {
    var moved := StepAll(j, j.fleetActivity).value;
    StepAllPreserves(j, j.fleetActivity);
    NoLateTerminal(j.history, moved.history, |j.deliveryPlan|);
    HistoryAppend(moved.history, [TimeElapsed(1)]);
  }

  /** Appending to a history whose delivered count has already reached `n`
      cannot end it with the terminal event when the tally stays right. */
  lemma NoLateTerminal(h: seq<Event>, h': seq<Event>, n: nat)
    requires h <= h' && !EndsDelivered(h) && CountDelivered(h) >= n
    requires CountDelivered(h') >= CountDelivered(h)
    requires TerminalTally(h, n) && TerminalTally(h', n)
    ensures !EndsDelivered(h')
  {
    var appended := h'[|h|..];
    assert h' == h + appended;
    HistoryAppend(h, appended);
    if EndsDelivered(h') {
      if |appended| == 0 {
        assert false;
      }
      assert EndsDelivered(appended);
      EndsDeliveredCounted(appended);
      assert false;
    }
  }
}
