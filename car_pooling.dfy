/**
 * The engine object and its two helpers, as the program keeps them: the
 * pool is a field of CarPooling, the waiting list a field of JourneyRequest
 * and the allocation record a field of JourneyLocation. Every operation
 * updates those fields in place and is proved against the functions of
 * module Allocation.
 */
module CarPoolingService {
  import opened Wrappers
  import opened Dicts
  import opened Allocation

  /** `CarPooling.JourneyRequest`: the waiting list, id to passengers, in arrival order. */
  class JourneyRequest {
    var waiting: Dict

    constructor ()
      ensures waiting == []
    {
      waiting := [];
    }

    /** `add`: enqueue a request, or overwrite the passengers of one already queued. */
    method Add(journeyId: int, passenger: int)
      modifies this
      ensures waiting == Set(old(waiting), journeyId, passenger)
    {
      waiting := Set(waiting, journeyId, passenger);
    }

    /** `remove`: dequeue a request, answering its id iff it was waiting. */
    method Remove(journeyId: int) returns (r: Option<int>)
      modifies this
      ensures r == (if HasKey(old(waiting), journeyId) then Some(journeyId) else None)
      ensures waiting == Dicts.Remove(old(waiting), journeyId)
      ensures !IsWaiting(journeyId)
    {
      if IsWaiting(journeyId) {
        waiting := Dicts.Remove(waiting, journeyId);
        r := Some(journeyId);
      } else {
        WithoutAbsent(waiting, {journeyId});
        r := None;
      }
    }

    /** `is_waiting`: some queued request has this id. */
    function IsWaiting(journeyId: int): (b: bool)
      reads this
      ensures b <==> exists i :: 0 <= i < |waiting| && waiting[i].0 == journeyId
    {
      HasKeyIff(waiting, journeyId);
      HasKey(waiting, journeyId)
    }
  }

  /** `CarPooling.JourneyLocation`: the allocation record, journey id to car id. */
  class JourneyLocation {
    var carPoolingLocation: Dict

    constructor ()
      ensures carPoolingLocation == []
    {
      carPoolingLocation := [];
    }

    /** `add`: record (or overwrite) the car of a journey. */
    method Add(journeyId: int, carId: int)
      modifies this
      ensures carPoolingLocation == Set(old(carPoolingLocation), journeyId, carId)
    {
      carPoolingLocation := Set(carPoolingLocation, journeyId, carId);
    }

    /** `is_allocated`: the car recorded for the journey, or None. */
    function IsAllocated(journeyId: int): (r: Option<int>)
      reads this
      ensures r.Some? <==> exists i :: 0 <= i < |carPoolingLocation| && carPoolingLocation[i].0 == journeyId
      ensures DistinctKeys(carPoolingLocation) ==>
                forall i :: 0 <= i < |carPoolingLocation| && carPoolingLocation[i].0 == journeyId ==>
                              r == Some(carPoolingLocation[i].1)
    {
      HasKeyIff(carPoolingLocation, journeyId);
      GetFindsPair(carPoolingLocation, journeyId);
      Get(carPoolingLocation, journeyId)
    }
  }

  /** `CarPooling`: the pool of free cars, id to seats, plus the two helpers. */
  class CarPooling {
    var carPooling: Dict
    const journeyRequest: JourneyRequest
    const journeyLocation: JourneyLocation

    /** The three dicts as one value. */
    function Snapshot(): State
      reads this, journeyRequest, journeyLocation
    {
      State(carPooling, journeyRequest.waiting, journeyLocation.carPoolingLocation)
    }

    ghost predicate Valid()
      reads this, journeyRequest, journeyLocation
    {
      Inv(Snapshot())
    }

    /**
     * `__init__`: build a dict from the pairs (none means an empty list), then
     * delete every car whose id or seat count is out of range.
     */
    constructor (carPoolingPairs: Option<seq<(int, int)>>)
      ensures Valid() && fresh(journeyRequest) && fresh(journeyLocation)
      ensures carPooling == CleanPool(FromPairs(if carPoolingPairs.Some? then carPoolingPairs.value else []))
      ensures journeyRequest.waiting == [] && journeyLocation.carPoolingLocation == []
    {
      var pairs := if carPoolingPairs.Some? then carPoolingPairs.value else [];
      var all := FromPairs(pairs);
      var clean := all;
      WithoutAbsent(all, {});
      var i := 0;
      while i < |all|
        invariant 0 <= i <= |all|
        invariant clean == Without(all, InvalidKeys(all[..i]))
      {
        var (carId, carSeat) := all[i];
        CleanPoolStep(all, i);
        if !IsValidCar(carId, carSeat) {
          clean := Dicts.Remove(clean, carId);
        }
        i := i + 1;
      }
      assert all[..i] == all;
      carPooling := clean;
      journeyRequest := new JourneyRequest();
      journeyLocation := new JourneyLocation();
    }

    /** `cars`: replace the whole pool, without any validation; None leaves it as it is. */
    method Cars(carPoolingPairs: Option<seq<(int, int)>>)
      requires Valid()
      modifies this
      ensures Valid()
      ensures carPooling == if carPoolingPairs.Some? then FromPairs(carPoolingPairs.value) else old(carPooling)
      ensures unchanged(journeyRequest, journeyLocation)
    {
      if carPoolingPairs.None? {
        return;
      }
      carPooling := FromPairs(carPoolingPairs.value);
    }

    /** `add`: insert or update one car, without any validation; answers its id. */
    method Add(carId: int, carSeats: int) returns (r: int)
      requires Valid()
      modifies this
      ensures Valid()
      ensures r == carId
      ensures carPooling == Set(old(carPooling), carId, carSeats)
      ensures unchanged(journeyRequest, journeyLocation)
    {
      carPooling := Set(carPooling, carId, carSeats);
      r := carId;
    }

    /** `_try_journey`: validate, then scan the pool for the car that leaves the fewest seats. */
    method TryJourney(journeyId: int, journeyPassenger: int) returns (bestCarId: int)
      ensures bestCarId == Allocation.TryJourney(carPooling, journeyId, journeyPassenger)
    {
      if !IsValidJourney(journeyId, journeyPassenger) {
        return BAD_REQUEST;
      }
      bestCarId := NOT_ALLOCATED;
      var bestSeatLeft := MAX_SEAT;
      var i := 0;
      while i < |carPooling|
        invariant 0 <= i <= |carPooling|
        invariant BestFit(carPooling[..i], journeyPassenger).None? ==>
                    bestCarId == NOT_ALLOCATED && bestSeatLeft == MAX_SEAT
        invariant BestFit(carPooling[..i], journeyPassenger).Some? ==>
                    var b := BestFit(carPooling[..i], journeyPassenger).value;
                    bestCarId == carPooling[b].0 && bestSeatLeft == SeatsLeft(carPooling[b], journeyPassenger)
      {
        var (carId, carSeat) := carPooling[i];
        if carSeat >= journeyPassenger {
          var seatLeft := carSeat - journeyPassenger;
          if seatLeft < bestSeatLeft {
            bestCarId := carId;
            bestSeatLeft := seatLeft;
          }
        }
        assert carPooling[..i + 1][..i] == carPooling[..i];
        i := i + 1;
      }
      assert carPooling[..i] == carPooling;
    }

    /** One waiting entry of the pass: allocate its best-fit car, if any, and record it. */
    method RetryOne(journeyId: int, entry: (int, int), attribution: Attribution)
      modifies this, journeyRequest, journeyLocation
      ensures Snapshot() == WaitingStep(old(Snapshot()), journeyId, entry, attribution)
    {
      var (waitingId, waitingSeat) := entry;
      var bestWaitingCarId := TryJourney(waitingId, waitingSeat);
      if bestWaitingCarId != NOT_ALLOCATED && bestWaitingCarId != BAD_REQUEST {
        carPooling := Dicts.Remove(carPooling, bestWaitingCarId);
        var _ := journeyRequest.Remove(waitingId);
        journeyLocation.Add(if attribution == ToIncoming then journeyId else waitingId, bestWaitingCarId);
      }
    }

    /**
     * The waiting pass of `journey`: retry every entry of a snapshot of the
     * list, in order, each against the pool the earlier ones left.
     */
    method RetryWaiting(journeyId: int, attribution: Attribution)
      modifies this, journeyRequest, journeyLocation
      ensures Snapshot() == WaitingPass(old(Snapshot()), journeyId, old(journeyRequest.waiting), attribution)
    {
      if |journeyRequest.waiting| > 0 {
        var snapshot := journeyRequest.waiting;
        var i := 0;
        while i < |snapshot|
          invariant 0 <= i <= |snapshot|
          invariant Snapshot() == WaitingPass(old(Snapshot()), journeyId, snapshot[..i], attribution)
        {
          RetryOne(journeyId, snapshot[i], attribution);
          assert snapshot[..i + 1][..i] == snapshot[..i];
          i := i + 1;
        }
        assert snapshot[..i] == snapshot;
      }
    }

    /** The primary attempt of `journey`: allocate, enqueue or reject the incoming request. */
    method Attempt(journeyId: int, journeyPassenger: int) returns (r: int)
      modifies this, journeyRequest, journeyLocation
      ensures (Snapshot(), r) == PrimaryAttempt(old(Snapshot()), journeyId, journeyPassenger)
    {
      var bestCarId := TryJourney(journeyId, journeyPassenger);
      if bestCarId == BAD_REQUEST {
        return BAD_REQUEST;
      }
      if bestCarId == NOT_ALLOCATED {
        journeyRequest.Add(journeyId, journeyPassenger);
        return NOT_ALLOCATED;
      }
      carPooling := Dicts.Remove(carPooling, bestCarId);
      journeyLocation.Add(journeyId, bestCarId);
      r := bestCarId;
    }

    /**
     * `journey`, as the program does it: allocations found in the waiting
     * pass are recorded under the incoming request's id.
     */
    method Journey(journeyId: int, journeyPassenger: int) returns (r: int)
      requires Valid()
      modifies this, journeyRequest, journeyLocation
      ensures Valid()
      ensures (Snapshot(), r) == Allocation.Journey(old(Snapshot()), journeyId, journeyPassenger, ToIncoming)
    {
      RetryWaiting(journeyId, ToIncoming);
      r := Attempt(journeyId, journeyPassenger);
      JourneyKeepsInv(old(Snapshot()), journeyId, journeyPassenger, ToIncoming);
    }

    /**
     * `journey` as evidently intended: allocations found in the waiting pass
     * are recorded under the waiting request's own id.
     */
    method JourneyIntended(journeyId: int, journeyPassenger: int) returns (r: int)
      requires Valid()
      modifies this, journeyRequest, journeyLocation
      ensures Valid()
      ensures (Snapshot(), r) == Allocation.Journey(old(Snapshot()), journeyId, journeyPassenger, ToWaiting)
      ensures Accounted(old(Snapshot()), Snapshot())
    {
      RetryWaiting(journeyId, ToWaiting);
      r := Attempt(journeyId, journeyPassenger);
      JourneyKeepsInv(old(Snapshot()), journeyId, journeyPassenger, ToWaiting);
      JourneyToWaitingAccounts(old(Snapshot()), journeyId, journeyPassenger);
    }

    /** `drop_off`: remove a journey from the waiting list only; answers its id iff it was waiting. */
    method DropOff(journeyId: int) returns (r: Option<int>)
      requires Valid()
      modifies journeyRequest
      ensures Valid()
      ensures r == (if HasKey(old(journeyRequest.waiting), journeyId) then Some(journeyId) else None)
      ensures journeyRequest.waiting == Dicts.Remove(old(journeyRequest.waiting), journeyId)
      ensures !journeyRequest.IsWaiting(journeyId)
      ensures unchanged(this, journeyLocation)
    {
      r := journeyRequest.Remove(journeyId);
    }
  }
}
