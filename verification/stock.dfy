/** The facility stock model: every location keeps a first-in, first-out queue
    of the cargo tags waiting there to be picked up. */
module Stock {
  import opened Wrappers
  import opened Domain

  type Queue = seq<Cargo>

  type Facilities = map<Location, Queue>

  /** Every location has a facility; the engine builds one per location. */
  predicate Total(f: Facilities) {
    forall l: Location :: l in f
  }

  /** Removes the first occurrence of `c`, keeping the order of the rest; a
      queue without `c` is returned as it is. */
  function RemoveFirst(q: Queue, c: Cargo): (r: Queue)
    ensures c !in q ==> r == q
    ensures c in q ==> |r| == |q| - 1
  {
    if q == [] then []
    else if q[0] == c then q[1..]
    else [q[0]] + RemoveFirst(q[1..], c)
  }

  /** Exactly one unit of `c` leaves the queue when there is one, and nothing else does. */
  lemma {:induction false} RemoveFirstCounts(q: Queue, c: Cargo)
    ensures multiset(RemoveFirst(q, c)) == multiset(q) - multiset{c}
  {
    if q != [] {
      assert q == [q[0]] + q[1..];
      if q[0] != c {
        RemoveFirstCounts(q[1..], c);
      }
    }
  }

  /** The unit removed is the first `c`; everything before and after it keeps its order. */
  lemma {:induction false} RemoveFirstSplits(q: Queue, c: Cargo, i: nat)
    requires i < |q| && q[i] == c
    requires forall k :: 0 <= k < i ==> q[k] != c
    ensures RemoveFirst(q, c) == q[..i] + q[i + 1..]
  {
    if i > 0 {
      RemoveFirstSplits(q[1..], c, i - 1);
      assert q[..i] == [q[0]] + q[1..][..i - 1];
      assert q[i + 1..] == q[1..][i..];
    }
  }

  /** The cargo at the head of the queue at `l`, if any. */
  function FirstStockedCargo(f: Facilities, l: Location): (r: Option<Cargo>)
    requires l in f
    ensures r.None? <==> |f[l]| == 0
    ensures r.Some? ==> r.value in f[l] && f[l] == [r.value] + f[l][1..]
  {
    if |f[l]| == 0 then None else Some(f[l][0])
  }

  /** Enqueues `c` at the tail of the queue at `l`. */
  function UnloadCargo(f: Facilities, l: Location, c: Cargo): (r: Facilities)
    requires l in f
    ensures r.Keys == f.Keys
    ensures |r[l]| == |f[l]| + 1
    ensures r[l][..|f[l]|] == f[l] && r[l][|f[l]|..] == [c]
    ensures forall m :: m in f && m != l ==> r[m] == f[m]
  {
    f[l := f[l] + [c]]
  }

  /** Reading one queue after an unload. */
  lemma UnloadAt(f: Facilities, l: Location, c: Cargo, m: Location)
    requires l in f && m in f
    ensures UnloadCargo(f, l, c)[m] == if m == l then f[l] + [c] else f[m]
  {
  }

  /** Takes the first `c` out of the queue at `l`; when `c` is at the head this
      is a dequeue. */
  function LoadCargo(f: Facilities, l: Location, c: Cargo): (r: Facilities)
    requires l in f
    ensures r.Keys == f.Keys
    ensures multiset(r[l]) == multiset(f[l]) - multiset{c}
    ensures FirstStockedCargo(f, l) == Some(c) ==> r[l] == f[l][1..]
    ensures forall m :: m in f && m != l ==> r[m] == f[m]
  {
    RemoveFirstCounts(f[l], c);
    f[l := RemoveFirst(f[l], c)]
  }

  /** Number of cargo units queued over the listed locations. */
  function StockOver(f: Facilities, ls: seq<Location>): nat
    requires forall l :: l in ls ==> l in f
  {
    if ls == [] then 0 else |f[ls[0]]| + StockOver(f, ls[1..])
  }

  /** Number of cargo units queued anywhere. */
  function TotalStock(f: Facilities): nat
    requires Total(f)
  {
    StockOver(f, AllLocations())
  }

  lemma {:induction false} StockOverUpdate(f: Facilities, ls: seq<Location>, l: Location, q: Queue)
    requires forall m :: m in ls ==> m in f
    requires l in f
    requires forall i, k :: 0 <= i < k < |ls| ==> ls[i] != ls[k]
    ensures StockOver(f[l := q], ls) == StockOver(f, ls) + (if l in ls then |q| - |f[l]| else 0)
  {
    if ls != [] {
      assert forall i, k :: 0 <= i < k < |ls[1..]| ==> ls[1..][i] != ls[1..][k] by {
        forall i, k | 0 <= i < k < |ls[1..]| ensures ls[1..][i] != ls[1..][k] {
          assert ls[1..][i] == ls[i + 1] && ls[1..][k] == ls[k + 1];
        }
      }
      StockOverUpdate(f, ls[1..], l, q);
      if ls[0] == l {
        assert l !in ls[1..] by {
          forall i | 0 <= i < |ls[1..]| ensures ls[1..][i] != l {
            assert ls[1..][i] == ls[i + 1];
          }
        }
      } else {
        assert l in ls <==> l in ls[1..] by {
          assert ls == [ls[0]] + ls[1..];
        }
      }
    }
  }

  /** Replacing one queue changes the total by the change in that queue's length. */
  lemma TotalStockUpdate(f: Facilities, l: Location, q: Queue)
    requires Total(f)
    ensures Total(f[l := q])
    ensures TotalStock(f[l := q]) == TotalStock(f) - |f[l]| + |q|
  {
    StockOverUpdate(f, AllLocations(), l, q);
  }

  /** Unloading adds exactly one unit to the stock. */
  lemma UnloadAddsOne(f: Facilities, l: Location, c: Cargo)
    requires Total(f)
    ensures Total(UnloadCargo(f, l, c))
    ensures TotalStock(UnloadCargo(f, l, c)) == TotalStock(f) + 1
  {
    TotalStockUpdate(f, l, f[l] + [c]);
  }

  /** Loading a cargo that is queued there removes exactly one unit from the stock. */
  lemma LoadRemovesOne(f: Facilities, l: Location, c: Cargo)
    requires Total(f)
    requires c in f[l]
    ensures Total(LoadCargo(f, l, c))
    ensures TotalStock(LoadCargo(f, l, c)) == TotalStock(f) - 1
  {
    TotalStockUpdate(f, l, RemoveFirst(f[l], c));
  }
}
