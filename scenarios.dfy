/**
 * The scenarios of the program's own tests, stated on the allocation
 * functions, and the waiting-pass attribution defect shown on the test's
 * reload scenario.
 */
module Scenarios {
  import opened Wrappers
  import opened Dicts
  import opened Allocation
  import opened CarPoolingService

  /** The test's load of invalid cars has distinct ids, so the dict keeps every pair. */
  lemma InvalidLoadPairs()
    ensures FromPairs([(1, -2), (-2, 3), (3, 0), (0, 4), (2, 3), (6, 7)]) == [(1, -2), (-2, 3), (3, 0), (0, 4), (2, 3), (6, 7)]
  {
    FromPairsDistinct([(1, -2), (-2, 3), (3, 0), (0, 4), (2, 3), (6, 7)]);
  }

  /** Loading drops negative and zero ids and seat counts outside 1 to 6. */
  lemma LoadDropsInvalidCars()
    ensures CleanPool(FromPairs([(1, -2), (-2, 3), (3, 0), (0, 4), (2, 3), (6, 7)])) == [(2, 3)]
  {
    InvalidLoadPairs();
    assert InvalidKeys([(1, -2), (-2, 3), (3, 0), (0, 4), (2, 3), (6, 7)]) == {1, -2, 3, 0, 6};
  }

  /** The last pair of a repeated id wins before the filter: (1, 7) is dropped, so nothing is left. */
  lemma LoadLastDuplicateWins()
    ensures CleanPool(FromPairs([(1, 4), (1, 3), (1, 1), (1, 7)])) == []
    ensures Journey(State(CleanPool(FromPairs([(1, 4), (1, 3), (1, 1), (1, 7)])), [], []), 1, 4, ToIncoming)
              == (State([], [(1, 4)], []), NOT_ALLOCATED)
  {
    assert [(1, 4), (1, 3), (1, 1), (1, 7)][..3] == [(1, 4), (1, 3), (1, 1)];
    assert [(1, 4), (1, 3), (1, 1)][..2] == [(1, 4), (1, 3)];
    assert [(1, 4), (1, 3)][..1] == [(1, 4)];
    assert FromPairs([(1, 4), (1, 3), (1, 1), (1, 7)]) == [(1, 7)];
  }

  /** Demand 5 in {1:3, 2:4, 3:6}: only car 3 has the seats. */
  lemma BestFitOnlyCandidate()
    ensures TryJourney([(1, 3), (2, 4), (3, 6)], 1, 5) == 3
  {
    assert IsBestFit([(1, 3), (2, 4), (3, 6)], 5, 2);
    TryJourneyIsBestFit([(1, 3), (2, 4), (3, 6)], 1, 5);
  }

  /** Demand 1 in {1:3, 4:4, 7:6}: car 1 leaves 2 seats, fewer than 3 and 5. */
  lemma BestFitLeastLeftover()
    ensures TryJourney([(1, 3), (4, 4), (7, 6)], 1, 1) == 1
  {
    assert IsBestFit([(1, 3), (4, 4), (7, 6)], 1, 0);
    TryJourneyIsBestFit([(1, 3), (4, 4), (7, 6)], 1, 1);
  }

  /** No car with enough seats, or no car at all: the request is queued. */
  lemma NoFitQueues()
    ensures Journey(State([(1, 2), (2, 3)], [], []), 1, 5, ToIncoming) == (State([(1, 2), (2, 3)], [(1, 5)], []), NOT_ALLOCATED)
    ensures Journey(State([], [], []), 1, 5, ToIncoming) == (State([], [(1, 5)], []), NOT_ALLOCATED)
  {
    PrimaryAttemptOutcome(State([(1, 2), (2, 3)], [], []), 1, 5);
    PrimaryAttemptOutcome(State([], [], []), 1, 5);
  }

  /** Seven passengers exceed MAX_SEAT: rejected, and nothing is queued or recorded. */
  lemma TooManyPassengersRejected()
    ensures Journey(State([(1, 2), (2, 3)], [], []), 1, 7, ToIncoming) == (State([(1, 2), (2, 3)], [], []), BAD_REQUEST)
  {
  }

  /**
   * A car added with id -1 that fits best is read as BAD_REQUEST: a valid
   * request gets -1 and is neither queued nor allocated.
   */
  lemma SentinelCollision()
    ensures Journey(State([(-1, 4)], [], []), 1, 4, ToIncoming) == (State([(-1, 4)], [], []), BAD_REQUEST)
  {
    assert IsBestFit([(-1, 4)], 4, 0);
    PrimaryAttemptOutcome(State([(-1, 4)], [], []), 1, 4);
  }

  /** The test's reload, `cars([(1,5), (2,2), (3,1), (4,3), (5,6), (6,4)])`, keeps the pairs as given. */
  lemma ReloadedPool()
    ensures FromPairs([(1, 5), (2, 2), (3, 1), (4, 3), (5, 6), (6, 4)]) == [(1, 5), (2, 2), (3, 1), (4, 3), (5, 6), (6, 4)]
  {
    FromPairsDistinct([(1, 5), (2, 2), (3, 1), (4, 3), (5, 6), (6, 4)]);
  }

  /** The test's state before `journey(5, 6)`: journey 2 waits for 6 seats, journey 3 has car 3. */
  function BeforeReloadJourney(): State {
    State([(1, 5), (2, 2), (3, 1), (4, 3), (5, 6), (6, 4)], [(2, 6)], [(3, 3)])
  }

  /** In the reloaded pool, waiting journey 2 (six passengers) fits car 5 exactly. */
  lemma ReloadBestFit()
    ensures TryJourney([(1, 5), (2, 2), (3, 1), (4, 3), (5, 6), (6, 4)], 2, 6) == 5
  {
    assert IsBestFit([(1, 5), (2, 2), (3, 1), (4, 3), (5, 6), (6, 4)], 6, 4);
    TryJourneyIsBestFit([(1, 5), (2, 2), (3, 1), (4, 3), (5, 6), (6, 4)], 2, 6);
  }

  /** Car 5 leaves the reloaded pool, journey 2 leaves the list, and car 5 is recorded. */
  lemma ReloadCarFiveTaken(holder: int)
    requires holder != 3
    ensures Remove([(1, 5), (2, 2), (3, 1), (4, 3), (5, 6), (6, 4)], 5) == [(1, 5), (2, 2), (3, 1), (4, 3), (6, 4)]
    ensures Remove([(2, 6)], 2) == []
    ensures Set([(3, 3)], holder, 5) == [(3, 3), (holder, 5)]
  {
  }

  /** Journey 2, waiting for six seats, takes car 5 of the reloaded pool. */
  lemma ReloadWaitingStep(s: State, attribution: Attribution)
    requires s == BeforeReloadJourney()
    ensures WaitingStep(s, 5, (2, 6), attribution) ==
      State([(1, 5), (2, 2), (3, 1), (4, 3), (6, 4)], [],
            [(3, 3), (if attribution == ToIncoming then 5 else 2, 5)])
  {
    assert IsBestFit(s.pool, 6, 4);
    WaitingStepOutcome(s, 5, (2, 6), attribution);
    ReloadCarFiveTaken(if attribution == ToIncoming then 5 else 2);
  }

  /** The waiting pass of `journey(5, 6)` in the reload scenario gives car 5 to journey 2. */
  lemma ReloadWaitingPass(s: State, attribution: Attribution)
    requires s == BeforeReloadJourney()
    ensures WaitingPass(s, 5, s.waiting, attribution) ==
      State([(1, 5), (2, 2), (3, 1), (4, 3), (6, 4)], [],
            [(3, 3), (if attribution == ToIncoming then 5 else 2, 5)])
  {
    assert s.waiting == [(2, 6)] && s.waiting[..0] == [];
    ReloadWaitingStep(s, attribution);
  }

  /** After that pass no car has six seats, so journey 5 itself is queued. */
  lemma ReloadPrimaryAttempt(location: Dict)
    ensures PrimaryAttempt(State([(1, 5), (2, 2), (3, 1), (4, 3), (6, 4)], [], location), 5, 6) ==
      (State([(1, 5), (2, 2), (3, 1), (4, 3), (6, 4)], [(5, 6)], location), NOT_ALLOCATED)
  {
    PrimaryAttemptOutcome(State([(1, 5), (2, 2), (3, 1), (4, 3), (6, 4)], [], location), 5, 6);
  }

  /**
   * As written, `journey(5, 6)` gives car 5 to waiting journey 2 but records
   * it under 5: journey 2 is then neither waiting nor allocated, while
   * journey 5 is both.
   */
  lemma AsWrittenLosesWaitingJourney()
    ensures Journey(BeforeReloadJourney(), 5, 6, ToIncoming) ==
      (State([(1, 5), (2, 2), (3, 1), (4, 3), (6, 4)], [(5, 6)], [(3, 3), (5, 5)]), NOT_ALLOCATED)
    ensures !Accounted(BeforeReloadJourney(), Journey(BeforeReloadJourney(), 5, 6, ToIncoming).0)
  {
    ReloadWaitingPass(BeforeReloadJourney(), ToIncoming);
    ReloadPrimaryAttempt([(3, 3), (5, 5)]);
    var after := Journey(BeforeReloadJourney(), 5, 6, ToIncoming).0;
    assert HasKey(BeforeReloadJourney().waiting, 2);
    assert !HasKey(after.waiting, 2) && !HasKey(after.location, 2);
  }

  /** Recording under the waiting request's own id, journey 2 holds car 5 and journey 5 waits. */
  lemma IntendedKeepsWaitingJourney()
    ensures Journey(BeforeReloadJourney(), 5, 6, ToWaiting) ==
      (State([(1, 5), (2, 2), (3, 1), (4, 3), (6, 4)], [(5, 6)], [(3, 3), (2, 5)]), NOT_ALLOCATED)
  {
    ReloadWaitingPass(BeforeReloadJourney(), ToWaiting);
    ReloadPrimaryAttempt([(3, 3), (2, 5)]);
  }

  /** A load of valid cars with distinct ids keeps them all, in order. */
  lemma LoadKeepsValidCars()
    ensures CleanPool(FromPairs([(1, 3), (2, 2), (3, 1), (4, 3)])) == [(1, 3), (2, 2), (3, 1), (4, 3)]
  {
    FromPairsDistinct([(1, 3), (2, 2), (3, 1), (4, 3)]);
    WithoutAbsent([(1, 3), (2, 2), (3, 1), (4, 3)], {});
  }

  /** Six passengers fit no car of the test pool: journey 1 is queued. */
  lemma QueueJourneyOne(s: State)
    requires s == State([(1, 3), (2, 2), (3, 1), (4, 3)], [], [])
    ensures Journey(s, 1, 6, ToIncoming) == (State(s.pool, [(1, 6)], []), NOT_ALLOCATED)
  {
    assert NoFit(s.pool, 6);
    WaitingPassNoFit(s, 1, s.waiting, ToIncoming);
    JourneyQueues(s, 1, 6, ToIncoming);
  }

  /** The drop-off test: queue journey 1, drop it off, then drop it off again. */
  method DropOffTwice() returns (queued: int, first: Option<int>, second: Option<int>)
    ensures queued == NOT_ALLOCATED && first == Some(1) && second == None
  {
    LoadKeepsValidCars();
    var service := new CarPooling(Some([(1, 3), (2, 2), (3, 1), (4, 3)]));
    assert service.Snapshot() == State([(1, 3), (2, 2), (3, 1), (4, 3)], [], []);
    QueueJourneyOne(service.Snapshot());
    queued := service.Journey(1, 6);
    assert queued == NOT_ALLOCATED;
    assert service.journeyRequest.waiting == [(1, 6)];
    first := service.DropOff(1);
    assert first == Some(1);
    second := service.DropOff(1);
    assert second == None;
  }

  /** Journey 2 queues behind journey 1: six passengers still fit no car. */
  lemma QueueJourneyTwo(s: State)
    requires s == State([(1, 3), (2, 2), (3, 1), (4, 3)], [(1, 6)], [])
    ensures Journey(s, 2, 6, ToIncoming) == (State(s.pool, [(1, 6), (2, 6)], []), NOT_ALLOCATED)
  {
    assert NoFit(s.pool, 6);
    WaitingPassNoFit(s, 2, s.waiting, ToIncoming);
    JourneyQueues(s, 2, 6, ToIncoming);
    assert Set([(1, 6)], 2, 6) == [(1, 6), (2, 6)];
  }

  /** Journey 3 (one passenger) takes car 3, the one seat that fits exactly. */
  lemma AllocateJourneyThree(s: State)
    requires s == State([(1, 3), (2, 2), (3, 1), (4, 3)], [(1, 6), (2, 6)], [])
    ensures Journey(s, 3, 1, ToIncoming) == (State([(1, 3), (2, 2), (4, 3)], [(1, 6), (2, 6)], [(3, 3)]), 3)
  {
    assert NoFit(s.pool, 6);
    assert s.waiting[0].1 == 6 && s.waiting[1].1 == 6;
    assert IsBestFit(s.pool, 1, 2);
    WaitingPassNoFit(s, 3, s.waiting, ToIncoming);
    JourneyAllocates(s, 3, 1, ToIncoming, 2);
    AfterJourneyThree();
  }

  /** Car 3 leaves the pool and journey 3 is recorded on it. */
  lemma AfterJourneyThree()
    ensures Remove([(1, 3), (2, 2), (3, 1), (4, 3)], 3) == [(1, 3), (2, 2), (4, 3)]
    ensures Set([], 3, 3) == [(3, 3)]
  {
  }

  /** Journey 4 queues: no car left has six seats. */
  lemma QueueJourneyFour(s: State)
    requires s == State([(1, 3), (2, 2), (4, 3)], [(1, 6), (2, 6)], [(3, 3)])
    ensures Journey(s, 4, 6, ToIncoming) == (State(s.pool, [(1, 6), (2, 6), (4, 6)], [(3, 3)]), NOT_ALLOCATED)
  {
    assert NoFit(s.pool, 6);
    assert s.waiting[0].1 == 6 && s.waiting[1].1 == 6;
    WaitingPassNoFit(s, 4, s.waiting, ToIncoming);
    JourneyQueues(s, 4, 6, ToIncoming);
    assert Set([(1, 6), (2, 6)], 4, 6) == [(1, 6), (2, 6), (4, 6)];
  }

  /** Dropping off journeys 1 and 4 leaves journey 2 alone in the list. */
  lemma DropOffOneAndFour()
    ensures Dicts.Remove([(1, 6), (2, 6), (4, 6)], 1) == [(2, 6), (4, 6)]
    ensures Dicts.Remove([(2, 6), (4, 6)], 4) == [(2, 6)]
  {
  }

  /** Car 6 leaves the reloaded pool and journey 6 is recorded on it. */
  lemma AfterJourneySix()
    ensures Remove([(1, 5), (2, 2), (3, 1), (4, 3), (6, 4)], 6) == [(1, 5), (2, 2), (3, 1), (4, 3)]
    ensures Set([(3, 3), (5, 5)], 6, 6) == [(3, 3), (5, 5), (6, 6)]
  {
  }

  /** After the reload and journey 5, journey 6 (four passengers) takes car 6, the exact fit. */
  lemma AllocateJourneySix(s: State)
    requires s == State([(1, 5), (2, 2), (3, 1), (4, 3), (6, 4)], [(5, 6)], [(3, 3), (5, 5)])
    ensures Journey(s, 6, 4, ToIncoming) == (State([(1, 5), (2, 2), (3, 1), (4, 3)], [(5, 6)], [(3, 3), (5, 5), (6, 6)]), 6)
  {
    assert NoFit(s.pool, 6);
    assert IsBestFit(s.pool, 4, 4);
    WaitingPassNoFit(s, 6, s.waiting, ToIncoming);
    JourneyAllocates(s, 6, 4, ToIncoming, 4);
    AfterJourneySix();
  }

  /** Car 4 leaves the pool and journey 8 is recorded on it. */
  lemma AfterJourneyEight()
    ensures Remove([(1, 5), (2, 2), (3, 1), (4, 3)], 4) == [(1, 5), (2, 2), (3, 1)]
    ensures Set([(3, 3), (5, 5), (6, 6)], 8, 4) == [(3, 3), (5, 5), (6, 6), (8, 4)]
  {
  }

  /** Journey 7 queues behind journey 5: no car has six seats. */
  lemma QueueJourneySeven(s: State)
    requires s == State([(1, 5), (2, 2), (3, 1), (4, 3)], [(5, 6)], [(3, 3), (5, 5), (6, 6)])
    ensures Journey(s, 7, 6, ToIncoming) == (State(s.pool, [(5, 6), (7, 6)], s.location), NOT_ALLOCATED)
  {
    assert NoFit(s.pool, 6);
    WaitingPassNoFit(s, 7, s.waiting, ToIncoming);
    JourneyQueues(s, 7, 6, ToIncoming);
    assert Set([(5, 6)], 7, 6) == [(5, 6), (7, 6)];
  }

  /** Journey 8 (three passengers) takes car 4, which fits exactly. */
  lemma AllocateJourneyEight(s: State)
    requires s == State([(1, 5), (2, 2), (3, 1), (4, 3)], [(5, 6), (7, 6)], [(3, 3), (5, 5), (6, 6)])
    ensures Journey(s, 8, 3, ToIncoming) == (State([(1, 5), (2, 2), (3, 1)], [(5, 6), (7, 6)], [(3, 3), (5, 5), (6, 6), (8, 4)]), 4)
  {
    assert NoFit(s.pool, 6);
    assert s.waiting[0].1 == 6 && s.waiting[1].1 == 6;
    assert IsBestFit(s.pool, 3, 3);
    WaitingPassNoFit(s, 8, s.waiting, ToIncoming);
    JourneyAllocates(s, 8, 3, ToIncoming, 3);
    AfterJourneyEight();
  }

  /**
   * The first half of the waiting-list test: journeys 1, 2 and 4 queue,
   * journey 3 takes car 3, and journeys 1 and 4 and the unknown 5 are
   * dropped off.
   */
  method WaitingListBeforeReload() returns (service: CarPooling)
    ensures service.Valid()
    ensures service.Snapshot() == State([(1, 3), (2, 2), (4, 3)], [(2, 6)], [(3, 3)])
  {
    LoadKeepsValidCars();
    service := new CarPooling(Some([(1, 3), (2, 2), (3, 1), (4, 3)]));
    assert service.Snapshot() == State([(1, 3), (2, 2), (3, 1), (4, 3)], [], []);

    QueueJourneyOne(service.Snapshot());
    var r := service.Journey(1, 6);
    assert r == NOT_ALLOCATED;

    QueueJourneyTwo(service.Snapshot());
    r := service.Journey(2, 6);
    assert r == NOT_ALLOCATED;

    AllocateJourneyThree(service.Snapshot());
    r := service.Journey(3, 1);
    assert r == 3;

    QueueJourneyFour(service.Snapshot());
    r := service.Journey(4, 6);
    assert r == NOT_ALLOCATED;

    DropOffOneAndFour();
    var dropped := service.DropOff(1);
    assert dropped == Some(1);
    dropped := service.DropOff(4);
    assert dropped == Some(4);
    dropped := service.DropOff(5);
    assert dropped == None;
  }

  /**
   * The second half: after the reload, `journey(5, 6)` gives car 5 to waiting
   * journey 2 but files it under 5 and queues journey 5; journey 6 takes car
   * 6, journey 7 queues, journey 8 takes car 4, and car 3 stays recorded for
   * journey 3 across the reload.
   */
  method WaitingListAfterReload(service: CarPooling)
    requires service.Valid()
    requires service.Snapshot() == State([(1, 3), (2, 2), (4, 3)], [(2, 6)], [(3, 3)])
    modifies service, service.journeyRequest, service.journeyLocation
  {
    ReloadedPool();
    service.Cars(Some([(1, 5), (2, 2), (3, 1), (4, 3), (5, 6), (6, 4)]));
    assert service.Snapshot() == BeforeReloadJourney();
    AsWrittenLosesWaitingJourney();
    var r := service.Journey(5, 6);
    assert r == NOT_ALLOCATED;

    AllocateJourneySix(service.Snapshot());
    r := service.Journey(6, 4);
    assert r == 6;

    QueueJourneySeven(service.Snapshot());
    r := service.Journey(7, 6);
    assert r == NOT_ALLOCATED;
    assert |service.journeyRequest.waiting| == 2;
    assert service.journeyLocation.carPoolingLocation[2] == (6, 6);
    assert service.journeyLocation.IsAllocated(6) == Some(6);
    assert service.journeyLocation.IsAllocated(3) == Some(3);

    AllocateJourneyEight(service.Snapshot());
    r := service.Journey(8, 3);
    assert r == 4;
    assert service.journeyLocation.carPoolingLocation[3] == (8, 4);
    assert service.journeyLocation.IsAllocated(8) == Some(4);
  }
}
