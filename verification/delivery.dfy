/** The use case: build the journey at the start of delivery from the plan,
    the fleet and the network, then let it proceed hour by hour until the
    history ends with `AllCargoHasBeenDelivered`. */
module Delivery {
  import opened Wrappers
  import opened Domain
  import opened Stock
  import opened Fleet
  import opened Simulation
  import opened Invariants

  /** The fleet as declared: each vehicle with the location it starts at. A
      vehicle declared twice keeps its first place and its last location, as
      in an insertion-ordered map. */
  type FleetDeclaration = seq<(Vehicle, Location)>

  /** The location a vehicle was last declared at, if it was declared. */
  function DeclaredAt(decls: FleetDeclaration, v: Vehicle): (r: Option<Location>)
    ensures r.Some? ==> (v, r.value) in decls
    ensures r.None? ==> forall i :: 0 <= i < |decls| ==> decls[i].0 != v
    ensures forall i :: 0 <= i < |decls| && decls[i].0 == v && (forall k :: i < k < |decls| ==> decls[k].0 != v)
                        ==> r == Some(decls[i].1)
  {
    if decls == [] then None
    else if decls[|decls| - 1].0 == v then Some(decls[|decls| - 1].1)
    else
      var earlier := decls[..|decls| - 1];
      assert forall k :: 0 <= k < |earlier| ==> earlier[k] == decls[k];
      DeclaredAt(earlier, v)
  }

  /** Recording an activity for a vehicle keeps the vehicles distinct. */
  lemma PutDistinct(f: FleetActivity, v: Vehicle, a: Activity)
    requires DistinctKeys(f)
    ensures DistinctKeys(Put(f, v, a))
  {
    var r := Put(f, v, a);
    forall i, k | 0 <= i < k < |r|
      ensures r[i].0 != r[k].0
    {
      assert r[i].0 == Keys(r)[i] && r[k].0 == Keys(r)[k];
      if k < |f| {
        assert Keys(r)[i] == Keys(f)[i] && Keys(r)[k] == Keys(f)[k];
        assert Keys(f)[i] == f[i].0 && Keys(f)[k] == f[k].0;
      } else {
        assert Keys(r)[i] == Keys(f)[i];
      }
    }
  }

  /** Every declared vehicle waits to start its journey where it was declared. */
  function InitialFleet(decls: FleetDeclaration): (r: FleetActivity)
    ensures DistinctKeys(r)
    ensures forall i :: 0 <= i < |r| ==> r[i].1.WaitingToStartJourney?
  {
    if decls == [] then []
    else
      var f := InitialFleet(decls[..|decls| - 1]);
      var (v, l) := decls[|decls| - 1];
      PutDistinct(f, v, WaitingToStartJourney(l));
      PutActivities(f, v, WaitingToStartJourney(l));
      var r := Put(f, v, WaitingToStartJourney(l));
      assert forall i :: 0 <= i < |r| ==> r[i] in r;
      r
  }

  /** Index of the first declaration of `v`, or `|decls|` when there is none. */
  function FirstDeclared(decls: FleetDeclaration, v: Vehicle): (i: nat)
    ensures i <= |decls|
    ensures i < |decls| ==> decls[i].0 == v
    ensures forall k :: 0 <= k < i ==> decls[k].0 != v
  {
    if decls == [] then 0
    else if decls[0].0 == v then 0
    else 1 + FirstDeclared(decls[1..], v)
  }

  /** `ks` lists the declared vehicles, each once, in the order of their
      first declaration. */
  ghost predicate InDeclarationOrder(decls: FleetDeclaration, ks: seq<Vehicle>) {
    && (forall i, k :: 0 <= i < k < |ks| ==> FirstDeclared(decls, ks[i]) < FirstDeclared(decls, ks[k]))
    && (forall i :: 0 <= i < |ks| ==> FirstDeclared(decls, ks[i]) < |decls|)
    && (forall i :: 0 <= i < |decls| ==> decls[i].0 in ks)
  }

  /** Declaring one more vehicle does not move an earlier first declaration. */
  lemma FirstDeclaredSnoc(decls: FleetDeclaration, d: (Vehicle, Location), w: Vehicle)
    ensures FirstDeclared(decls, w) < |decls| ==> FirstDeclared(decls + [d], w) == FirstDeclared(decls, w)
    ensures FirstDeclared(decls, w) == |decls| && d.0 == w ==> FirstDeclared(decls + [d], w) == |decls|
  {
    var e := decls + [d];
    assert forall k :: 0 <= k < |decls| ==> e[k] == decls[k];
    if FirstDeclared(decls, w) == |decls| && d.0 == w {
      assert e[|decls|].0 == w;
    }
  }

  /** Every vehicle listed so far keeps its first declaration. */
  lemma ListedKeepFirst(p: FleetDeclaration, d: (Vehicle, Location), ks: seq<Vehicle>)
    requires forall i :: 0 <= i < |ks| ==> FirstDeclared(p, ks[i]) < |p|
    ensures forall i :: 0 <= i < |ks| ==> FirstDeclared(p + [d], ks[i]) == FirstDeclared(p, ks[i])
  {
    forall i | 0 <= i < |ks|
      ensures FirstDeclared(p + [d], ks[i]) == FirstDeclared(p, ks[i])
    {
      FirstDeclaredSnoc(p, d, ks[i]);
    }
  }

  /** Every declaration so far, and the new one, is listed. */
  lemma AllListed(p: FleetDeclaration, d: (Vehicle, Location), ks: seq<Vehicle>, ks': seq<Vehicle>)
    requires forall i :: 0 <= i < |p| ==> p[i].0 in ks
    requires forall w :: w in ks ==> w in ks'
    requires d.0 in ks'
    ensures forall i :: 0 <= i < |p + [d]| ==> (p + [d])[i].0 in ks'
  {
    forall i | 0 <= i < |p + [d]|
      ensures (p + [d])[i].0 in ks'
    {
      if i < |p| { assert (p + [d])[i] == p[i]; }
    }
  }

  /** Declaring a vehicle already listed leaves the order as it is. */
  lemma OrderSnocKnown(p: FleetDeclaration, d: (Vehicle, Location), ks: seq<Vehicle>)
    requires InDeclarationOrder(p, ks) && d.0 in ks
    ensures InDeclarationOrder(p + [d], ks)
  {
    ListedKeepFirst(p, d, ks);
    AllListed(p, d, ks, ks);
  }

  /** A vehicle first declared after every listed one extends the order. */
  lemma AppendLatest(decls: FleetDeclaration, ks: seq<Vehicle>, w: Vehicle)
    requires forall i, k :: 0 <= i < k < |ks| ==> FirstDeclared(decls, ks[i]) < FirstDeclared(decls, ks[k])
    requires forall i :: 0 <= i < |ks| ==> FirstDeclared(decls, ks[i]) < FirstDeclared(decls, w)
    ensures forall i, k :: 0 <= i < k < |ks + [w]| ==> FirstDeclared(decls, (ks + [w])[i]) < FirstDeclared(decls, (ks + [w])[k])
  {
    var ks' := ks + [w];
    forall i, k | 0 <= i < k < |ks'|
      ensures FirstDeclared(decls, ks'[i]) < FirstDeclared(decls, ks'[k])
    {
      assert ks'[i] == ks[i];
      if k < |ks| { assert ks'[k] == ks[k]; }
    }
  }

  /** Declaring a new vehicle appends it to the order. */
  lemma OrderSnocNew(p: FleetDeclaration, d: (Vehicle, Location), ks: seq<Vehicle>)
    requires InDeclarationOrder(p, ks) && d.0 !in ks
    ensures InDeclarationOrder(p + [d], ks + [d.0])
  {
    var decls := p + [d];
    var ks' := ks + [d.0];
    ListedKeepFirst(p, d, ks);
    AllListed(p, d, ks, ks');
    assert forall i :: 0 <= i < |p| ==> p[i].0 != d.0;
    FirstDeclaredSnoc(p, d, d.0);
    AppendLatest(decls, ks, d.0);
    assert forall i :: 0 <= i < |ks| ==> ks'[i] == ks[i];
  }

  /** The initial fleet holds the declared vehicles in the order of their first
      declaration, as the insertion-ordered map keeps them: each tick moves
      them in this order. */
  lemma {:induction false} InitialFleetOrder(decls: FleetDeclaration)
    ensures InDeclarationOrder(decls, Keys(InitialFleet(decls)))
  {
    if decls != [] {
      var p := decls[..|decls| - 1];
      var d := decls[|decls| - 1];
      assert decls == p + [d];
      InitialFleetOrder(p);
      if d.0 in Keys(InitialFleet(p)) {
        OrderSnocKnown(p, d, Keys(InitialFleet(p)));
      } else {
        OrderSnocNew(p, d, Keys(InitialFleet(p)));
      }
      assert InitialFleet(decls) == Put(InitialFleet(p), d.0, WaitingToStartJourney(d.1));
    }
  }

  /** Every entry after a `Put` is an old entry or the new one. */
  lemma {:induction false} PutActivities(f: FleetActivity, v: Vehicle, a: Activity)
    ensures forall e :: e in Put(f, v, a) ==> e in f || e == (v, a)
  {
    if f != [] && f[0].0 != v {
      PutActivities(f[1..], v, a);
      assert Put(f, v, a) == [f[0]] + Put(f[1..], v, a);
    }
  }

  /** The initial fleet holds exactly the declared vehicles, each waiting to
      start at the location it was last declared at. */
  lemma {:induction false} InitialFleetLookup(decls: FleetDeclaration, v: Vehicle)
    ensures Lookup(InitialFleet(decls), v) ==
            match DeclaredAt(decls, v)
            case None => None
            case Some(l) => Some(WaitingToStartJourney(l))
  {
    if decls != [] {
      var (w, l) := decls[|decls| - 1];
      PutLookup(InitialFleet(decls[..|decls| - 1]), w, WaitingToStartJourney(l), v);
      if w != v {
        InitialFleetLookup(decls[..|decls| - 1], v);
      }
    }
  }

  /** A facility, without stock, at every location. */
  function EmptyFacilities(): (r: Facilities)
    ensures Total(r)
    ensures forall l: Location :: |r[l]| == 0
  {
    map l | l in AllLocations() :: []
  }

  /** Each planned delivery's cargo is unloaded at its origin, in plan order. */
  function StockFacilities(f: Facilities, plan: Plan): (r: Facilities)
    requires Total(f)
    ensures Total(r)
    ensures TotalStock(r) == TotalStock(f) + |plan|
  {
    if plan == [] then f
    else
      var d := plan[|plan| - 1];
      var g := StockFacilities(f, plan[..|plan| - 1]);
      UnloadAddsOne(g, d.from, d.cargo);
      UnloadCargo(g, d.from, d.cargo)
  }

  /** The cargo of the deliveries that start at `l`, in plan order. */
  function Origins(plan: Plan, l: Location): Queue {
    if plan == [] then []
    else (if plan[0].from == l then [plan[0].cargo] else []) + Origins(plan[1..], l)
  }

  lemma {:induction false} OriginsSnoc(plan: Plan, d: CargoDelivery, l: Location)
    ensures Origins(plan + [d], l) == Origins(plan, l) + (if d.from == l then [d.cargo] else [])
  {
    if plan != [] {
      assert (plan + [d])[1..] == plan[1..] + [d];
      OriginsSnoc(plan[1..], d, l);
    } else {
      assert [] + [d] == [d];
    }
  }

  /** The queue at each location holds what was there, followed by the cargo
      of every delivery that starts there, in plan order. */
  lemma {:induction false} StockedQueues(f: Facilities, plan: Plan, l: Location)
    requires Total(f)
    ensures StockFacilities(f, plan)[l] == f[l] + Origins(plan, l)
  {
    if plan != [] {
      var init := plan[..|plan| - 1];
      var d := plan[|plan| - 1];
      var g := StockFacilities(f, init);
      StockedQueues(f, init, l);
      assert plan == init + [d];
      OriginsSnoc(init, d, l);
      UnloadAt(g, d.from, d.cargo, l);
      if d.from == l {
        AppendAssoc(f[l], Origins(init, l), [d.cargo]);
      } else {
        assert Origins(init, l) + [] == Origins(init, l);
      }
    }
  }

  lemma AppendAssoc<T>(a: seq<T>, b: seq<T>, c: seq<T>)
    ensures a + b + c == a + (b + c)
  {
  }

  function InitialJourney(plan: Plan, decls: FleetDeclaration, network: Network): (j: Journey)
    ensures Total(j.facilities)
    ensures j.elapsedTime == 0 && j.history == []
    ensures j.deliveryPlan == plan && j.deliveryNetwork == network
  {
    Journey(InitialFleet(decls), 0, plan, StockFacilities(EmptyFacilities(), plan), [], network)
  }

  /** Stocking an empty network queues at each location exactly the cargo of
      the deliveries that start there, in plan order. */
  lemma InitialQueues(plan: Plan)
    ensures forall l: Location :: StockFacilities(EmptyFacilities(), plan)[l] == Origins(plan, l)
  {
    var empty := EmptyFacilities();
    forall l: Location
      ensures StockFacilities(empty, plan)[l] == Origins(plan, l)
    {
      StockedQueues(empty, plan, l);
      assert empty[l] == [];
    }
  }

  /** The journey at the start of delivery keeps every invariant a tick keeps:
      all cargo of the plan is queued, no vehicle is on the road, the clock is
      zero and the history empty. */
  lemma InitialJourneyValid(plan: Plan, decls: FleetDeclaration, network: Network)
    ensures Valid(InitialJourney(plan, decls, network))
    ensures LegBounds(InitialJourney(plan, decls, network).fleetActivity)
    ensures forall l: Location :: InitialJourney(plan, decls, network).facilities[l] == Origins(plan, l)
  {
    var j := InitialJourney(plan, decls, network);
    var f := InitialFleet(decls);
    assert j.fleetActivity == f && j.facilities == StockFacilities(EmptyFacilities(), plan);
    NoneDelivering(f);
    EmptyStockOver(EmptyFacilities(), AllLocations());
    assert TotalStock(j.facilities) == |plan|;
    EmptyHistoryValid(|plan|);
    InitialQueues(plan);
  }

  /** The empty history has delivered nothing, has not completed and has taken
      no time. */
  lemma EmptyHistoryValid(n: nat)
    ensures TimeElapsedSum([]) == 0
    ensures TerminalTally([], n) && CompletionAt([], n, 0)
  {
    assert CountAllDelivered([]) == 0 && CountDelivered([]) == 0;
  }

  lemma {:induction false} NoneDelivering(f: FleetActivity)
    requires forall i :: 0 <= i < |f| ==> f[i].1.WaitingToStartJourney?
    ensures CountDelivering(f) == 0
  {
    if f != [] {
      assert f[0].1.WaitingToStartJourney?;
      NoneDelivering(f[1..]);
    }
  }

  lemma {:induction false} EmptyStockOver(f: Facilities, ls: seq<Location>)
    requires forall l :: l in ls ==> l in f && |f[l]| == 0
    ensures StockOver(f, ls) == 0
  {
    if ls != [] {
      assert ls[0] in ls;
      EmptyStockOver(f, ls[1..]);
    }
  }

  /** Proceeds until the history ends with `AllCargoHasBeenDelivered`, for at
      most `fuel` ticks; a journey that has not completed by then is reported
      as `DidNotConverge`. */
  function Run(j: Journey, fuel: nat): (r: Result<seq<Event>, Error>)
    requires Total(j.facilities)
    ensures r.Success? ==> EndsDelivered(r.value) && j.history <= r.value
    decreases fuel
  {
    if IsCompleted(j) then Success(j.history)
    else if fuel == 0 then Failure(DidNotConverge)
    else
      var next :- Proceed(j);
      Run(next, fuel - 1)
  }

  /** The history of the first journey that has completed. */
  function DeliverCargo(plan: Plan, decls: FleetDeclaration, network: Network, fuel: nat): (r: Result<seq<Event>, Error>)
    ensures r.Success? ==> EndsDelivered(r.value)
  {
    Run(InitialJourney(plan, decls, network), fuel)
  }

  /** More ticks never change a result that was reached. */
  lemma {:induction false} RunFuelMonotone(j: Journey, fuel: nat, more: nat)
    requires Total(j.facilities)
    requires Run(j, fuel).Success?
    requires fuel <= more
    ensures Run(j, more) == Run(j, fuel)
    decreases fuel
  {
    if !IsCompleted(j) {
      var next := Proceed(j).value;
      var m: nat := fuel - 1;
      var m': nat := more - 1;
      RunTick(j, fuel, m, next);
      RunTick(j, more, m', next);
      RunFuelMonotone(next, m, m');
    }
  }

  /** A history the driver returns has delivered every planned cargo once it
      reached its destination, holds one `AllCargoHasBeenDelivered`, as its
      last event, stamped with the sum of the `TimeElapsed` events, and the
      plan was not empty. */
  ghost predicate CompleteHistory(h: seq<Event>, n: nat) {
    && n >= 1
    && CountDelivered(h) == n
    && CountAllDelivered(h) == 1
    && |h| > 0 && h[|h| - 1] == AllCargoHasBeenDelivered(TimeElapsedSum(h))
  }

  lemma {:induction false} RunOutcome(j: Journey, fuel: nat)
    requires Valid(j)
    requires Run(j, fuel).Success?
    ensures CompleteHistory(Run(j, fuel).value, |j.deliveryPlan|)
    decreases fuel
  {
    if IsCompleted(j) {
      EndsDeliveredCounted(j.history);
    } else {
      var next := Proceed(j).value;
      var m: nat := fuel - 1;
      ProceedPreserves(j);
      RunTick(j, fuel, m, next);
      RunOutcome(next, m);
    }
  }

  /** Once the delivered count has reached the plan's size without the history
      ending in `AllCargoHasBeenDelivered`, the driver returns no history,
      whatever the fuel: it either stops on a configuration error or goes
      round until the fuel runs out. */
  lemma {:induction false} RunNeverFinishes(j: Journey, fuel: nat)
    requires Valid(j) && !IsCompleted(j)
    requires CountDelivered(j.history) >= |j.deliveryPlan|
    ensures Run(j, fuel).Failure?
    decreases fuel
  {
    if fuel > 0 && Proceed(j).Success? {
      var next := Proceed(j).value;
      StaysLate(j, next);
      var m: nat := fuel - 1;
      RunNeverFinishes(next, m);
      RunTick(j, fuel, m, next);
    } else {
      RunUnfolds(j, fuel);
    }
  }

  /** One tick of the driver on a journey that has not completed, when the
      tick's outcome is known: the run goes on from the next journey with one
      tick less. */
  lemma RunTick(j: Journey, fuel: nat, m: nat, next: Journey)
    requires Total(j.facilities) && !IsCompleted(j)
    requires fuel == m + 1 && Proceed(j) == Success(next)
    ensures Run(j, fuel) == Run(next, m)
  {
  }

  /** Every vehicle of `entries` waits for cargo at a facility without stock. */
  ghost predicate IdleEntries(j: Journey, entries: seq<Entry>)
    requires Total(j.facilities)
  {
    forall i :: 0 <= i < |entries| ==>
      entries[i].1.WaitingForCargo? && |j.facilities[entries[i].1.location]| == 0
  }

  /** Vehicles waiting at empty facilities leave the journey as it is. */
  lemma {:induction false} IdleMoves(j: Journey, entries: seq<Entry>)
    requires Total(j.facilities) && IdleEntries(j, entries)
    ensures StepAll(j, entries) == Success(j)
    decreases |entries|
  {
    if entries != [] {
      assert StepVehicle(j, entries[0].0, entries[0].1) == Success(j);
      assert IdleEntries(j, entries[1..]) by {
        assert forall i :: 0 <= i < |entries[1..]| ==> entries[1..][i] == entries[i + 1];
      }
      IdleMoves(j, entries[1..]);
    }
  }

  /** A journey whose every vehicle waits at an empty facility never completes:
      each tick only lets an hour pass, so the driver goes round until the
      fuel runs out. */
  lemma {:induction false} IdleNeverFinishes(j: Journey, fuel: nat)
    requires Total(j.facilities) && IdleEntries(j, j.fleetActivity) && !IsCompleted(j)
    ensures Run(j, fuel) == Failure(DidNotConverge)
    decreases fuel
  {
    if fuel > 0 {
      IdleMoves(j, j.fleetActivity);
      var next := ElapseTimeBy(j, 1);
      assert Proceed(j) == Success(next);
      var m: nat := fuel - 1;
      RunTick(j, fuel, m, next);
      assert next.history[|next.history| - 1] == TimeElapsed(1);
      IdleNeverFinishes(next, m);
    }
  }

  /** A tick keeps a journey that missed its terminal event in that state. */
  lemma StaysLate(j: Journey, next: Journey)
    requires Valid(j) && !IsCompleted(j)
    requires CountDelivered(j.history) >= |j.deliveryPlan|
    requires Proceed(j) == Success(next)
    ensures Valid(next) && !IsCompleted(next) && CountDelivered(next.history) >= |next.deliveryPlan|
  {
    ProceedPreserves(j);
    ProceedNeverCompletesLate(j);
  }

  /** One tick of the driver on a journey that has not completed. */
  lemma RunUnfolds(j: Journey, fuel: nat)
    requires Total(j.facilities) && !IsCompleted(j)
    ensures fuel == 0 || Proceed(j).Failure? ==> Run(j, fuel).Failure?
    ensures fuel > 0 && Proceed(j).Success? ==> Run(j, fuel) == Run(Proceed(j).value, fuel - 1)
  {
  }

  /** What the use case returns: a completed history for the whole plan. */
  lemma DeliverCargoOutcome(plan: Plan, decls: FleetDeclaration, network: Network, fuel: nat)
    requires DeliverCargo(plan, decls, network, fuel).Success?
    ensures var h := DeliverCargo(plan, decls, network, fuel).value;
      && |plan| >= 1
      && CountDelivered(h) == |plan|
      && CountAllDelivered(h) == 1
      && h[|h| - 1] == AllCargoHasBeenDelivered(TimeElapsedSum(h))
  {
    InitialJourneyValid(plan, decls, network);
    RunOutcome(InitialJourney(plan, decls, network), fuel);
  }

  /** An empty plan never completes: nothing can be delivered, so the terminal
      event is never emitted. */
  lemma EmptyPlanNeverFinishes(decls: FleetDeclaration, network: Network, fuel: nat)
    ensures DeliverCargo([], decls, network, fuel).Failure?
  {
    InitialJourneyValid([], decls, network);
    RunNeverFinishes(InitialJourney([], decls, network), fuel);
  }
}
