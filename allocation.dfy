/**
 * The allocation rules of the car pooling engine as functions on values:
 * request and car validation, the best-fit search, the waiting-list retry
 * pass and the primary attempt that together make up a journey request.
 * The engine's classes (module CarPoolingService) are proved against these.
 */
module Allocation {
  import opened Wrappers
  import opened Dicts

  const BAD_REQUEST: int := -1
  const NOT_ALLOCATED: int := 0
  const MAX_SEAT: int := 6

  /** `_is_valid`: a car a bulk load keeps. */
  predicate IsValidCar(carId: int, carSeats: int) {
    carId > 0 && 0 < carSeats <= MAX_SEAT
  }

  /** `JourneyRequest.is_valid`: a journey request the engine accepts. */
  predicate IsValidJourney(journeyId: int, passengers: int) {
    journeyId > 0 && 0 < passengers <= MAX_SEAT
  }

  // ---------------------------------------------------------------------------
  // Loading the pool
  // ---------------------------------------------------------------------------

  /** The keys of the pairs a bulk load drops. */
  function InvalidKeys(d: Dict): (ks: set<int>)
    ensures forall k :: k in ks ==> HasKey(d, k)
  {
    if d == [] then {}
    else (if IsValidCar(d[0].0, d[0].1) then {} else {d[0].0}) + InvalidKeys(d[1..])
  }

  lemma {:induction false} InvalidKeysSnoc(d: Dict, e: (int, int))
    ensures InvalidKeys(d + [e]) == InvalidKeys(d) + (if IsValidCar(e.0, e.1) then {} else {e.0})
  {
    if d != [] {
      assert (d + [e])[1..] == d[1..] + [e];
      InvalidKeysSnoc(d[1..], e);
    }
  }

  /** Scanning one more pair of the loaded dict deletes its key if the car is invalid. */
  lemma CleanPoolStep(d: Dict, i: int)
    requires 0 <= i < |d|
    ensures Without(d, InvalidKeys(d[..i + 1])) ==
              if IsValidCar(d[i].0, d[i].1) then Without(d, InvalidKeys(d[..i]))
              else Remove(Without(d, InvalidKeys(d[..i])), d[i].0)
  {
    var ks := InvalidKeys(d[..i]);
    assert d[..i + 1] == d[..i] + [d[i]];
    InvalidKeysSnoc(d[..i], d[i]);
    if IsValidCar(d[i].0, d[i].1) {
      assert InvalidKeys(d[..i + 1]) == ks;
    } else {
      assert InvalidKeys(d[..i + 1]) == ks + {d[i].0};
      calc {
        Remove(Without(d, ks), d[i].0);
        Without(Without(d, ks), {d[i].0});
        { WithoutWithout(d, ks, {d[i].0}); }
        Without(d, ks + {d[i].0});
      }
    }
  }

  /** The pool the constructor keeps of the dict built from its argument. */
  function CleanPool(d: Dict): (r: Dict)
    ensures |r| <= |d|
    ensures forall k :: HasKey(r, k) ==> HasKey(d, k)
    ensures DistinctKeys(d) ==> DistinctKeys(r)
  {
    Without(d, InvalidKeys(d))
  }

  /** The constructor keeps exactly the cars with a positive id and 1 to 6 seats. */
  lemma {:induction false} CleanPoolKeepsValidCars(d: Dict)
    requires DistinctKeys(d)
    ensures forall k :: Get(CleanPool(d), k) ==
                        (if Get(d, k).Some? && IsValidCar(k, Get(d, k).value) then Get(d, k) else None)
  {
    forall k
      ensures k in InvalidKeys(d) <==> Get(d, k).Some? && !IsValidCar(k, Get(d, k).value)
    {
      InvalidKeysAreInvalidCars(d, k);
    }
  }

  lemma {:induction false} InvalidKeysAreInvalidCars(d: Dict, k: int)
    requires DistinctKeys(d)
    ensures k in InvalidKeys(d) <==> Get(d, k).Some? && !IsValidCar(k, Get(d, k).value)
  {
    if d != [] {
      InvalidKeysAreInvalidCars(d[1..], k);
    }
  }

  // ---------------------------------------------------------------------------
  // Best fit (`_try_journey`)
  // ---------------------------------------------------------------------------

  /** Seats a car would have left after taking `passengers`. */
  function SeatsLeft(car: (int, int), passengers: int): int {
    car.1 - passengers
  }

  /**
   * A car can take the journey: enough seats, and fewer than MAX_SEAT left
   * over, since the search starts from `best_seat_left = MAX_SEAT` and only
   * accepts a strictly smaller leftover.
   */
  predicate Fits(car: (int, int), passengers: int) {
    car.1 >= passengers && SeatsLeft(car, passengers) < MAX_SEAT
  }

  predicate NoFit(pool: Dict, passengers: int) {
    forall j :: 0 <= j < |pool| ==> !Fits(pool[j], passengers)
  }

  /**
   * Reference definition of the chosen car: it fits, every earlier fitting car
   * leaves strictly more seats, and no later fitting car leaves fewer.
   */
  predicate IsBestFit(pool: Dict, passengers: int, i: int) {
    && 0 <= i < |pool|
    && Fits(pool[i], passengers)
    && (forall j :: 0 <= j < i && Fits(pool[j], passengers) ==>
          SeatsLeft(pool[i], passengers) < SeatsLeft(pool[j], passengers))
    && (forall j :: i < j < |pool| && Fits(pool[j], passengers) ==>
          SeatsLeft(pool[i], passengers) <= SeatsLeft(pool[j], passengers))
  }

  /** Position of the car the search over the pool in its order settles on. */
  function BestFit(pool: Dict, passengers: int): (r: Option<nat>)
    ensures r.Some? ==> r.value < |pool| && Fits(pool[r.value], passengers)
    decreases |pool|
  {
    if pool == [] then None
    else
      var n := |pool| - 1;
      var b := BestFit(pool[..n], passengers);
      if Fits(pool[n], passengers) &&
         (b.None? || SeatsLeft(pool[n], passengers) < SeatsLeft(pool[b.value], passengers))
      then Some(n)
      else b
  }

  /** The search finds a car iff one fits, and the one it finds is the first of least leftover. */
  lemma {:induction false} BestFitIsFirstMinimum(pool: Dict, passengers: int)
    ensures BestFit(pool, passengers).None? <==> NoFit(pool, passengers)
    ensures BestFit(pool, passengers).Some? ==> IsBestFit(pool, passengers, BestFit(pool, passengers).value)
  {
    if pool != [] {
      var n := |pool| - 1;
      var prefix := pool[..n];
      BestFitIsFirstMinimum(prefix, passengers);
      assert forall j :: 0 <= j < n ==> prefix[j] == pool[j];
    }
  }

  /** The reference definition pins the chosen car down: exactly one position satisfies it. */
  lemma BestFitUnique(pool: Dict, passengers: int, i: int)
    requires IsBestFit(pool, passengers, i)
    ensures BestFit(pool, passengers) == Some(i)
  {
    BestFitIsFirstMinimum(pool, passengers);
  }

  /** `_try_journey`: BAD_REQUEST, NOT_ALLOCATED, or the id of the best-fit car. */
  function TryJourney(pool: Dict, journeyId: int, passengers: int): (r: int)
    ensures !IsValidJourney(journeyId, passengers) ==> r == BAD_REQUEST
    ensures IsValidJourney(journeyId, passengers) && r != NOT_ALLOCATED ==> HasKey(pool, r)
  {
    if !IsValidJourney(journeyId, passengers) then BAD_REQUEST
    else match BestFit(pool, passengers)
      case None => NOT_ALLOCATED
      case Some(i) => HasKeyAt(pool, i); pool[i].0
  }

  /**
   * `is_valid` decides the BAD_REQUEST answer: a journey id below 1 or a
   * passenger count outside 1 to 6 is always refused, and with no car of id
   * -1 in the pool nothing else is.
   */
  lemma BadRequestIffInvalid(pool: Dict, journeyId: int, passengers: int)
    ensures journeyId <= 0 || passengers <= 0 || passengers > MAX_SEAT ==>
              TryJourney(pool, journeyId, passengers) == BAD_REQUEST
    ensures (forall j :: 0 <= j < |pool| ==> pool[j].0 != BAD_REQUEST) ==>
              (TryJourney(pool, journeyId, passengers) == BAD_REQUEST <==>
                 journeyId <= 0 || passengers <= 0 || passengers > MAX_SEAT)
  {
    if IsValidJourney(journeyId, passengers) {
      match BestFit(pool, passengers)
      case None =>
      case Some(i) =>
    }
  }

  /** What `_try_journey` answers for a valid request, in terms of the reference definition. */
  lemma TryJourneyIsBestFit(pool: Dict, journeyId: int, passengers: int)
    requires IsValidJourney(journeyId, passengers)
    ensures NoFit(pool, passengers) ==> TryJourney(pool, journeyId, passengers) == NOT_ALLOCATED
    ensures forall i :: IsBestFit(pool, passengers, i) ==> TryJourney(pool, journeyId, passengers) == pool[i].0
  {
    BestFitIsFirstMinimum(pool, passengers);
    forall i | IsBestFit(pool, passengers, i)
      ensures TryJourney(pool, journeyId, passengers) == pool[i].0
    {
      BestFitUnique(pool, passengers, i);
    }
  }

  // ---------------------------------------------------------------------------
  // Journey requests
  // ---------------------------------------------------------------------------

  /** The engine's three dicts: the pool, the waiting list and the allocation record. */
  datatype State = State(pool: Dict, waiting: Dict, location: Dict)

  /** Every waiting request passed validation. */
  ghost predicate ValidWaiting(waiting: Dict) {
    forall k :: HasKey(waiting, k) ==> IsValidJourney(k, Get(waiting, k).value)
  }

  /** What every reachable engine state satisfies. */
  ghost predicate Inv(s: State) {
    && DistinctKeys(s.pool)
    && DistinctKeys(s.waiting)
    && DistinctKeys(s.location)
    && ValidWaiting(s.waiting)
  }

  /**
   * Whose id an allocation found in the waiting pass is recorded under: the
   * incoming request's (what the engine does) or the waiting request's own.
   */
  datatype Attribution = ToIncoming | ToWaiting

  /** Retry one waiting entry against the current pool. */
  function WaitingStep(s: State, journeyId: int, entry: (int, int), attribution: Attribution): (r: State)
    ensures forall k :: HasKey(r.pool, k) ==> HasKey(s.pool, k)
    ensures forall k :: HasKey(r.waiting, k) ==> HasKey(s.waiting, k)
    ensures forall k :: HasKey(s.location, k) ==> HasKey(r.location, k)
  {
    var car := TryJourney(s.pool, entry.0, entry.1);
    if car != NOT_ALLOCATED && car != BAD_REQUEST then
      var holder := if attribution == ToIncoming then journeyId else entry.0;
      State(Remove(s.pool, car), Remove(s.waiting, entry.0), Set(s.location, holder, car))
    else s
  }

  /** Retry the entries in order, each against the pool the earlier ones left. */
  function WaitingPass(s: State, journeyId: int, entries: seq<(int, int)>, attribution: Attribution): (r: State)
    ensures forall k :: HasKey(r.pool, k) ==> HasKey(s.pool, k)
    ensures forall k :: HasKey(r.waiting, k) ==> HasKey(s.waiting, k)
    ensures forall k :: HasKey(s.location, k) ==> HasKey(r.location, k)
    decreases |entries|
  {
    if entries == [] then s
    else
      var n := |entries| - 1;
      WaitingStep(WaitingPass(s, journeyId, entries[..n], attribution), journeyId, entries[n], attribution)
  }

  /** The incoming request: allocate, enqueue or reject; with the result `journey` returns. */
  function PrimaryAttempt(s: State, journeyId: int, passengers: int): (r: (State, int))
    ensures r.1 == BAD_REQUEST ==> r.0 == s
    ensures r.1 == NOT_ALLOCATED ==>
              r.0.pool == s.pool && r.0.location == s.location && Get(r.0.waiting, journeyId) == Some(passengers)
    ensures r.1 != BAD_REQUEST && r.1 != NOT_ALLOCATED ==>
              && HasKey(s.pool, r.1) && !HasKey(r.0.pool, r.1)
              && Get(r.0.location, journeyId) == Some(r.1) && r.0.waiting == s.waiting
  {
    var car := TryJourney(s.pool, journeyId, passengers);
    if car == BAD_REQUEST then (s, BAD_REQUEST)
    else if car == NOT_ALLOCATED then (s.(waiting := Set(s.waiting, journeyId, passengers)), NOT_ALLOCATED)
    else (s.(pool := Remove(s.pool, car), location := Set(s.location, journeyId, car)), car)
  }

  /** `journey`: the waiting pass over a snapshot of the list, then the primary attempt. */
  function Journey(s: State, journeyId: int, passengers: int, attribution: Attribution): (r: (State, int))
    ensures !IsValidJourney(journeyId, passengers) ==> r.1 == BAD_REQUEST
    ensures forall k :: HasKey(r.0.pool, k) ==> HasKey(s.pool, k)
    ensures r.1 != BAD_REQUEST && r.1 != NOT_ALLOCATED ==>
              HasKey(s.pool, r.1) && !HasKey(r.0.pool, r.1) && Get(r.0.location, journeyId) == Some(r.1)
  {
    PrimaryAttempt(WaitingPass(s, journeyId, s.waiting, attribution), journeyId, passengers)
  }

  // ---------------------------------------------------------------------------
  // Properties of a journey request
  // ---------------------------------------------------------------------------

  /**
   * One waiting entry: untouched when no car fits (or the best fit's id
   * collides with a sentinel); otherwise the best-fit car leaves the pool, the
   * entry leaves the list, and the car is recorded.
   */
  lemma WaitingStepOutcome(s: State, journeyId: int, entry: (int, int), attribution: Attribution)
    requires IsValidJourney(entry.0, entry.1)
    ensures NoFit(s.pool, entry.1) ==> WaitingStep(s, journeyId, entry, attribution) == s
    ensures forall i :: IsBestFit(s.pool, entry.1, i) ==>
      var car := s.pool[i].0;
      WaitingStep(s, journeyId, entry, attribution) ==
        if car == NOT_ALLOCATED || car == BAD_REQUEST then s
        else State(Remove(s.pool, car), Remove(s.waiting, entry.0),
                   Set(s.location, if attribution == ToIncoming then journeyId else entry.0, car))
  {
    TryJourneyIsBestFit(s.pool, entry.0, entry.1);
  }

  /**
   * The incoming request: rejected without a trace when invalid; enqueued
   * (inserted or overwritten) when no car fits; otherwise given the best-fit
   * car, which leaves the pool. A best fit whose id is 0 or -1 is read as
   * the sentinel of the same value.
   */
  lemma PrimaryAttemptOutcome(s: State, journeyId: int, passengers: int)
    ensures !IsValidJourney(journeyId, passengers) ==> PrimaryAttempt(s, journeyId, passengers) == (s, BAD_REQUEST)
    ensures IsValidJourney(journeyId, passengers) && NoFit(s.pool, passengers) ==>
      PrimaryAttempt(s, journeyId, passengers) ==
        (s.(waiting := Set(s.waiting, journeyId, passengers)), NOT_ALLOCATED)
    ensures IsValidJourney(journeyId, passengers) ==> forall i :: IsBestFit(s.pool, passengers, i) ==>
      var car := s.pool[i].0;
      PrimaryAttempt(s, journeyId, passengers) ==
        if car == BAD_REQUEST then (s, BAD_REQUEST)
        else if car == NOT_ALLOCATED then (s.(waiting := Set(s.waiting, journeyId, passengers)), NOT_ALLOCATED)
        else (s.(pool := Remove(s.pool, car), location := Set(s.location, journeyId, car)), car)
  {
    if IsValidJourney(journeyId, passengers) {
      TryJourneyIsBestFit(s.pool, journeyId, passengers);
    }
  }

  ghost predicate KeysOf(ks: set<int>, d: Dict) {
    forall k :: k in ks ==> HasKey(d, k)
  }

  /** `after` is `before` with at most `n` of its cars popped, the rest unchanged and in order. */
  ghost predicate PopsAtMost(before: Dict, after: Dict, n: int) {
    exists popped: set<int> :: |popped| <= n && KeysOf(popped, before) && after == Without(before, popped)
  }

  /** Popping one more car from a pool that lost at most `n` loses at most `n + 1`. */
  lemma PopsOneMore(before: Dict, mid: Dict, n: int, car: int)
    requires PopsAtMost(before, mid, n)
    requires HasKey(mid, car)
    ensures PopsAtMost(before, Remove(mid, car), n + 1)
  {
    var popped :| |popped| <= n && KeysOf(popped, before) && mid == Without(before, popped);
    var popped' := popped + {car};
    assert |popped'| <= n + 1 by {
      assert |popped'| <= |popped| + |{car}|;
    }
    assert KeysOf(popped', before);
    assert Remove(mid, car) == Without(before, popped') by {
      WithoutWithout(before, popped, {car});
    }
  }

  /**
   * The waiting pass only pops cars of the pool, at most one per entry, only
   * removes entries from the list, never removes an allocation, and (as the
   * engine records them) writes the allocation record under the incoming id
   * alone.
   */
  lemma {:induction false} WaitingPassShape(s: State, journeyId: int, entries: seq<(int, int)>, attribution: Attribution)
    ensures PopsAtMost(s.pool, WaitingPass(s, journeyId, entries, attribution).pool, |entries|)
    ensures forall k :: HasKey(WaitingPass(s, journeyId, entries, attribution).waiting, k) ==>
                          Get(WaitingPass(s, journeyId, entries, attribution).waiting, k) == Get(s.waiting, k)
    ensures forall k :: HasKey(s.location, k) ==> HasKey(WaitingPass(s, journeyId, entries, attribution).location, k)
    ensures attribution == ToIncoming ==>
              forall k :: k != journeyId ==>
                            Get(WaitingPass(s, journeyId, entries, attribution).location, k) == Get(s.location, k)
  {
    if entries == [] {
      WithoutAbsent(s.pool, {});
    } else {
      var n := |entries| - 1;
      var mid := WaitingPass(s, journeyId, entries[..n], attribution);
      WaitingPassShape(s, journeyId, entries[..n], attribution);
      var car := TryJourney(mid.pool, entries[n].0, entries[n].1);
      if car != NOT_ALLOCATED && car != BAD_REQUEST {
        PopsOneMore(s.pool, mid.pool, n, car);
      }
    }
  }

  /** `journey` never adds a car or changes a seat count: it pops at most one car per waiting entry plus one. */
  lemma JourneyOnlyRemovesCars(s: State, journeyId: int, passengers: int, attribution: Attribution)
    ensures PopsAtMost(s.pool, Journey(s, journeyId, passengers, attribution).0.pool, |s.waiting| + 1)
  {
    var mid := WaitingPass(s, journeyId, s.waiting, attribution);
    WaitingPassShape(s, journeyId, s.waiting, attribution);
    var car := TryJourney(mid.pool, journeyId, passengers);
    if car != NOT_ALLOCATED && car != BAD_REQUEST {
      PopsOneMore(s.pool, mid.pool, |s.waiting|, car);
    } else {
      var popped :| |popped| <= |s.waiting| && KeysOf(popped, s.pool) && mid.pool == Without(s.pool, popped);
      assert |popped| <= |s.waiting| + 1;
    }
  }

  /** Entries for which no car fits are left untouched, and so is everything else. */
  lemma {:induction false} WaitingPassNoFit(s: State, journeyId: int, entries: seq<(int, int)>, attribution: Attribution)
    requires forall i :: 0 <= i < |entries| ==> NoFit(s.pool, entries[i].1)
    ensures WaitingPass(s, journeyId, entries, attribution) == s
  {
    if entries != [] {
      var n := |entries| - 1;
      WaitingPassNoFit(s, journeyId, entries[..n], attribution);
      BestFitIsFirstMinimum(s.pool, entries[n].1);
    }
  }

  /**
   * An invalid request is answered BAD_REQUEST and leaves no trace of its
   * own, but the waiting pass before it has still run.
   */
  lemma JourneyRejected(s: State, journeyId: int, passengers: int, attribution: Attribution)
    requires !IsValidJourney(journeyId, passengers)
    ensures Journey(s, journeyId, passengers, attribution) ==
              (WaitingPass(s, journeyId, s.waiting, attribution), BAD_REQUEST)
  {
    PrimaryAttemptOutcome(WaitingPass(s, journeyId, s.waiting, attribution), journeyId, passengers);
  }

  /** When no waiting entry fits, `journey` is its primary attempt alone. */
  lemma JourneyNoWaitingFit(s: State, journeyId: int, passengers: int, attribution: Attribution)
    requires forall i :: 0 <= i < |s.waiting| ==> NoFit(s.pool, s.waiting[i].1)
    ensures Journey(s, journeyId, passengers, attribution) == PrimaryAttempt(s, journeyId, passengers)
  {
    WaitingPassNoFit(s, journeyId, s.waiting, attribution);
  }

  /** Deleting cars cannot make a car fit. */
  lemma {:induction false} NoFitWithout(d: Dict, ks: set<int>, passengers: int)
    requires NoFit(d, passengers)
    ensures NoFit(Without(d, ks), passengers)
  {
    if d != [] {
      assert NoFit(d[1..], passengers) by {
        forall j | 0 <= j < |d[1..]|
          ensures !Fits(d[1..][j], passengers)
        {
          assert d[1..][j] == d[j + 1];
        }
      }
      NoFitWithout(d[1..], ks, passengers);
      if d[0].0 !in ks {
        var r := Without(d, ks);
        assert r == [d[0]] + Without(d[1..], ks);
        forall j | 0 <= j < |r|
          ensures !Fits(r[j], passengers)
        {
          if j > 0 {
            assert r[j] == Without(d[1..], ks)[j - 1];
          }
        }
      }
    }
  }

  /**
   * A valid request that no car of the pool fits is queued, whatever the
   * waiting pass before it did: the pass only deletes cars.
   */
  lemma JourneyQueues(s: State, journeyId: int, passengers: int, attribution: Attribution)
    requires IsValidJourney(journeyId, passengers) && NoFit(s.pool, passengers)
    ensures var mid := WaitingPass(s, journeyId, s.waiting, attribution);
            Journey(s, journeyId, passengers, attribution) ==
              (mid.(waiting := Set(mid.waiting, journeyId, passengers)), NOT_ALLOCATED)
  {
    var mid := WaitingPass(s, journeyId, s.waiting, attribution);
    WaitingPassShape(s, journeyId, s.waiting, attribution);
    var popped :| |popped| <= |s.waiting| && KeysOf(popped, s.pool) && mid.pool == Without(s.pool, popped);
    NoFitWithout(s.pool, popped, passengers);
    PrimaryAttemptOutcome(mid, journeyId, passengers);
  }

  /**
   * A valid request whose best fit in the pool the waiting pass left is car
   * `i` takes that car: it leaves the pool and is recorded under the request.
   * A car id of -1 or 0 is read as the sentinel of the same value.
   */
  lemma JourneyAllocates(s: State, journeyId: int, passengers: int, attribution: Attribution, i: int)
    requires IsValidJourney(journeyId, passengers)
    requires IsBestFit(WaitingPass(s, journeyId, s.waiting, attribution).pool, passengers, i)
    ensures var mid := WaitingPass(s, journeyId, s.waiting, attribution);
            var car := mid.pool[i].0;
            Journey(s, journeyId, passengers, attribution) ==
              if car == BAD_REQUEST then (mid, BAD_REQUEST)
              else if car == NOT_ALLOCATED then (mid.(waiting := Set(mid.waiting, journeyId, passengers)), NOT_ALLOCATED)
              else (mid.(pool := Remove(mid.pool, car), location := Set(mid.location, journeyId, car)), car)
  {
    PrimaryAttemptOutcome(WaitingPass(s, journeyId, s.waiting, attribution), journeyId, passengers);
  }

  /** The waiting pass keeps the engine invariant. */
  lemma {:induction false} WaitingPassKeepsInv(s: State, journeyId: int, entries: seq<(int, int)>, attribution: Attribution)
    requires Inv(s)
    ensures Inv(WaitingPass(s, journeyId, entries, attribution))
  {
    if entries != [] {
      WaitingPassKeepsInv(s, journeyId, entries[..|entries| - 1], attribution);
    }
  }

  /**
   * `journey` keeps the engine invariant; in particular every waiting request
   * still has a positive id and 1 to 6 passengers.
   */
  lemma JourneyKeepsInv(s: State, journeyId: int, passengers: int, attribution: Attribution)
    requires Inv(s)
    ensures Inv(Journey(s, journeyId, passengers, attribution).0)
  {
    WaitingPassKeepsInv(s, journeyId, s.waiting, attribution);
  }

  /** Every request that was waiting is, afterwards, still waiting or allocated. */
  ghost predicate Accounted(before: State, after: State) {
    forall k :: HasKey(before.waiting, k) ==> HasKey(after.waiting, k) || HasKey(after.location, k)
  }

  /** Recording under the waiting request's own id, the pass loses no request. */
  lemma {:induction false} WaitingPassToWaitingAccounts(s: State, journeyId: int, entries: seq<(int, int)>)
    ensures Accounted(s, WaitingPass(s, journeyId, entries, ToWaiting))
  {
    if entries != [] {
      WaitingPassToWaitingAccounts(s, journeyId, entries[..|entries| - 1]);
    }
  }

  /** Recording under the waiting request's own id, `journey` loses no request. */
  lemma JourneyToWaitingAccounts(s: State, journeyId: int, passengers: int)
    ensures Accounted(s, Journey(s, journeyId, passengers, ToWaiting).0)
  {
    WaitingPassToWaitingAccounts(s, journeyId, s.waiting);
  }
}
