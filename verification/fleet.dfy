/** Per-vehicle activities and the fleet: an insertion-ordered map from each
    vehicle to what it is doing, kept as a sequence of distinct-keyed entries so
    that the order the vehicles were declared in is explicit. */
module Fleet {
  import opened Wrappers
  import opened Domain

  datatype Activity =
    | WaitingToStartJourney(location: Location)
    | WaitingForCargo(location: Location)
    | DeliveringCargo(cargo: Cargo, from: Location, to: Location, legTime: Hours, elapsedTime: Hours)
    | Returning(from: Location, to: Location, legTime: Hours, elapsedTime: Hours)
  {
    predicate IsStationary() {
      WaitingToStartJourney? || WaitingForCargo?
    }

    /** Hours still to drive on the leg. */
    function RemainingTime(): (r: Hours)
      requires !IsStationary()
      ensures r == 0 <==> elapsedTime == legTime
      ensures 0 <= elapsedTime <= legTime ==> 0 <= r <= legTime
    {
      legTime - elapsedTime
    }

    /** The vehicle has spent the whole leg time on the road. */
    predicate HasArrived()
      requires !IsStationary()
      ensures HasArrived() <==> elapsedTime == legTime
    {
      RemainingTime() == 0
    }

    /** One more hour on the same leg. */
    function ContinueRoute(): (r: Activity)
      requires !IsStationary()
      ensures r.DeliveringCargo? == DeliveringCargo? && r.Returning? == Returning?
      ensures r.from == from && r.to == to && r.legTime == legTime
      ensures DeliveringCargo? ==> r.cargo == cargo
      ensures r.RemainingTime() == RemainingTime() - 1
    {
      this.(elapsedTime := elapsedTime + 1)
    }
  }

  /** The activity after `n` more hours on the same leg: a vehicle with `k`
      hours left has arrived after exactly `k` more hours, and not before. */
  function Advance(a: Activity, n: nat): (r: Activity)
    requires !a.IsStationary()
    ensures !r.IsStationary() && r.DeliveringCargo? == a.DeliveringCargo?
    ensures r.from == a.from && r.to == a.to && r.legTime == a.legTime
    ensures a.DeliveringCargo? ==> r.cargo == a.cargo
    ensures r.RemainingTime() == a.RemainingTime() - n
    ensures r.HasArrived() <==> n == a.RemainingTime()
    decreases n
  {
    if n == 0 then a else Advance(a.ContinueRoute(), n - 1)
  }

  type Entry = (Vehicle, Activity)

  type FleetActivity = seq<Entry>

  /** The vehicles of the fleet, in fleet order. */
  function Keys(f: FleetActivity): seq<Vehicle> {
    seq(|f|, i requires 0 <= i < |f| => f[i].0)
  }

  /** No vehicle occurs twice, as in any map. */
  predicate DistinctKeys(f: FleetActivity) {
    forall i, k :: 0 <= i < k < |f| ==> f[i].0 != f[k].0
  }

  /** The activity recorded for `v`, if `v` is in the fleet. */
  function Lookup(f: FleetActivity, v: Vehicle): (r: Option<Activity>)
    ensures r.None? <==> v !in Keys(f)
    ensures r.Some? ==> (v, r.value) in f
  {
    if f == [] then None
    else if f[0].0 == v then
      assert Keys(f)[0] == v;
      Some(f[0].1)
    else
      assert Keys(f) == [f[0].0] + Keys(f[1..]);
      Lookup(f[1..], v)
  }

  /** Records `a` for `v`: an existing vehicle keeps its place in the order, a
      new one is added at the end. */
  function Put(f: FleetActivity, v: Vehicle, a: Activity): (r: FleetActivity)
    ensures Keys(r) == if v in Keys(f) then Keys(f) else Keys(f) + [v]
  {
    if f == [] then [(v, a)]
    else if f[0].0 == v then
      var r := [(v, a)] + f[1..];
      assert Keys(f)[0] == v;
      assert Keys(r) == Keys(f);
      r
    else
      var r := [f[0]] + Put(f[1..], v, a);
      assert Keys(r) == [f[0].0] + Keys(Put(f[1..], v, a));
      assert Keys(f) == [f[0].0] + Keys(f[1..]);
      r
  }

  /** After `Put`, `v` maps to `a` and every other vehicle keeps its activity. */
  lemma {:induction false} PutLookup(f: FleetActivity, v: Vehicle, a: Activity, w: Vehicle)
    ensures Lookup(Put(f, v, a), w) == if w == v then Some(a) else Lookup(f, w)
  {
    if f != [] && f[0].0 != v && f[0].0 != w {
      PutLookup(f[1..], v, a, w);
    }
  }

  /** In a fleet without duplicates the entry at `v`'s position is the one found. */
  lemma {:induction false} LookupAt(f: FleetActivity, p: nat)
    requires DistinctKeys(f)
    requires p < |f|
    ensures Lookup(f, f[p].0) == Some(f[p].1)
  {
    if p > 0 {
      LookupAt(f[1..], p - 1);
    }
  }

  /** In a fleet without duplicates, recording an activity for a vehicle
      rewrites that vehicle's entry where it stands and touches nothing else. */
  lemma PutInPlace(f: FleetActivity, p: nat, a: Activity)
    requires DistinctKeys(f)
    requires p < |f|
    ensures Put(f, f[p].0, a) == f[p := (f[p].0, a)]
  {
    PutAtFirst(f, p, f[p].0, a);
  }

  /** Updating behind the head of a sequence updates its tail. */
  lemma UpdateBehindHead<T>(s: seq<T>, p: nat, x: T)
    requires 0 < p < |s|
    ensures s[p := x] == [s[0]] + s[1..][p - 1 := x]
  {
    var u := [s[0]] + s[1..][p - 1 := x];
    forall i | 0 <= i < |s|
      ensures u[i] == s[p := x][i]
    {
      if i > 0 {
        assert u[i] == s[1..][p - 1 := x][i - 1];
      }
    }
  }

  /** `Put` rewrites the first entry of the vehicle. */
  lemma {:induction false} PutAtFirst(f: FleetActivity, p: nat, v: Vehicle, a: Activity)
    requires p < |f| && f[p].0 == v
    requires forall i :: 0 <= i < p ==> f[i].0 != v
    ensures Put(f, v, a) == f[p := (v, a)]
    decreases p
  {
    if p > 0 {
      assert f[0].0 != v;
      assert f[1..][p - 1] == f[p];
      assert forall i :: 0 <= i < p - 1 ==> f[1..][i] == f[i + 1];
      PutAtFirst(f[1..], p - 1, v, a);
      assert Put(f, v, a) == [f[0]] + Put(f[1..], v, a);
      UpdateBehindHead(f, p, (v, a));
    } else {
      assert Put(f, v, a) == [(v, a)] + f[1..];
    }
  }

  /** Recording a vehicle the fleet does not hold yet appends it after all the
      others, as an insertion-ordered map does. */
  lemma {:induction false} PutAtEnd(f: FleetActivity, v: Vehicle, a: Activity)
    requires v !in Keys(f)
    ensures Put(f, v, a) == f + [(v, a)]
  {
    if f != [] {
      assert Keys(f) == [f[0].0] + Keys(f[1..]);
      PutAtEnd(f[1..], v, a);
      assert [f[0]] + (f[1..] + [(v, a)]) == f + [(v, a)];
    }
  }

  /** Number of vehicles currently carrying cargo. */
  function CountDelivering(f: FleetActivity): nat {
    if f == [] then 0
    else (if f[0].1.DeliveringCargo? then 1 else 0) + CountDelivering(f[1..])
  }

  /** Rewriting one entry changes the number of carriers only by that entry. */
  lemma {:induction false} CountDeliveringUpdate(f: FleetActivity, p: nat, e: Entry)
    requires p < |f|
    ensures CountDelivering(f[p := e]) ==
            CountDelivering(f) - (if f[p].1.DeliveringCargo? then 1 else 0) + (if e.1.DeliveringCargo? then 1 else 0)
  {
    if p > 0 {
      CountDeliveringUpdate(f[1..], p - 1, e);
      assert f[p := e][1..] == f[1..][p - 1 := e];
    }
  }

  /** Every vehicle on the road is part-way along a leg of positive length. */
  predicate LegBounds(f: FleetActivity) {
    forall i :: 0 <= i < |f| && !f[i].1.IsStationary() ==> 0 <= f[i].1.elapsedTime < f[i].1.legTime
  }
}
