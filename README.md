# Car pooling allocation engine, in Dafny

This project models the seat-allocation engine of the car sharing pooling
service: the `CarPooling` class with its two nested helpers. The engine keeps
three insertion-ordered dicts:

- the **pool**, car id to free seats (`CarPooling.car_pooling`);
- the **waiting list**, journey id to passengers (`JourneyRequest.waiting`);
- the **allocation record**, journey id to car id
  (`JourneyLocation.car_pooling_location`).

Its operations are the constructor (build the pool from pairs, drop invalid
cars), `cars` (replace the pool), `add` (upsert a car), `_try_journey`
(best-fit search), `journey` (retry the waiting list, then allocate, enqueue
or reject the incoming request), `drop_off` (dequeue), and the lookups
`is_waiting` and `is_allocated`.

The project has five files:

- `wrappers.dfy`: `Option`, standing for Python's `None`.
- `dicts.dfy`: a Python dict as a sequence of key/value pairs in insertion
  order. Assigning to an existing key updates it in place, assigning to a new
  key appends, `pop` removes the pair, and `dict(pairs)` keeps the last value
  of a repeated key at its first position.
- `allocation.dfy`: the engine as pure functions over a `State` of the three
  dicts, with the validation predicates, the best-fit search, the waiting
  pass and the primary attempt, and the lemmas about them.
- `car_pooling.dfy`: the three classes. Their fields are updated in place by
  methods with loops, and each method is proved equal to the corresponding
  function of `allocation.dfy` or `dicts.dfy`.
- `scenarios.dfy`: the program's own test scenarios, stated on the functions
  and, for the drop-off and waiting-list tests, stated as sequences of calls
  on the classes and proved by the verifier.

Ids and seat counts are unbounded integers. `add` and `cars` accept any ids,
so a best-fit car whose id is 0 or -1 is read as the `NOT_ALLOCATED` or
`BAD_REQUEST` sentinel. The model keeps that behaviour
(`Allocation.PrimaryAttemptOutcome`, `Scenarios.SentinelCollision`).

Line 57 of `CarPooling.py` records an allocation found in the waiting pass
under the incoming `journey_id`, not under the waiting request's id. The
functions take an `Attribution` parameter for this. `ToIncoming` is the code
as written, and `CarPooling.Journey` uses it. `ToWaiting` is the evident
intent, and the separate method `CarPooling.JourneyIntended` uses it.
Recording the car under `waiting_id` is evidently what was meant, since that
request is the one dequeued; the model keeps the code as written and logs the
difference under Findings.

## Model

| member | source | states |
|---|---|---|
| Dicts.Get | service/car_pooling/CarPooling.py:149-153 | the lookup is None exactly when the key is absent |
| Dicts.Set | service/car_pooling/CarPooling.py:41 | key assignment: the key maps to the new value, every other key keeps its value, the size grows by one only for a new key, distinct keys are kept |
| Dicts.SetInPlace | service/car_pooling/CarPooling.py:115 | assigning to an existing key updates that pair where it stands; a new key is appended at the end |
| Dicts.Remove | service/car_pooling/CarPooling.py:55 | `pop`: exactly that key disappears, every other key keeps its value, distinct keys are kept |
| Dicts.Without | service/car_pooling/CarPooling.py:21-24 | deleting a set of keys keeps exactly the other keys, with their values, in order |
| Dicts.WithoutWithout | service/car_pooling/CarPooling.py:22-24 | deleting keys one after another equals deleting them all at once |
| Dicts.WithoutAbsent | service/car_pooling/CarPooling.py:121-122 | deleting keys that are absent leaves the dict unchanged |
| Dicts.FromPairs | service/car_pooling/CarPooling.py:19 | `dict(pairs)` has distinct keys and exactly the keys of the pairs |
| Dicts.FromPairsLastWins | service/car_pooling/CarPooling.py:19 | `dict(pairs)` maps a key to the value of its last pair |
| Dicts.FromPairsRepeatKeepsPosition | service/car_pooling/CarPooling.py:19 | a repeated key in `dict(pairs)` takes the later value but keeps the position of its first pair; the order of keys is unchanged |
| Dicts.FromPairsDistinct | service/car_pooling/CarPooling.py:37 | pairs with distinct keys are kept as given, in order |
| Dicts.HasKeyIff | service/car_pooling/CarPooling.py:125 | membership of a key holds exactly when some pair has that key |
| Dicts.GetFindsPair | service/car_pooling/CarPooling.py:151 | with distinct keys, the lookup gives the value of the pair holding the key |
| Allocation.CleanPool | service/car_pooling/CarPooling.py:15-25 | filtering never adds a car or grows the pool, and keeps keys distinct |
| Allocation.CleanPoolKeepsValidCars | service/car_pooling/CarPooling.py:15-25 | the constructor keeps a car iff its id is positive and its seats are 1 to 6, with the seats it had in the built dict |
| Allocation.InvalidKeysAreInvalidCars | service/car_pooling/CarPooling.py:78-84 | a key is deleted iff its car fails `_is_valid` (`IsValidCar`): id positive and seats 1 to 6 |
| Allocation.CleanPoolStep | service/car_pooling/CarPooling.py:22-24 | each loop step deletes the scanned key exactly when its car is invalid |
| Allocation.BestFit | service/car_pooling/CarPooling.py:92-99 | a chosen index is in range and its car fits: enough seats, and fewer than 6 left over |
| Allocation.BestFitIsFirstMinimum | service/car_pooling/CarPooling.py:92-101 | no car is chosen iff none fits; otherwise the chosen car is the first one leaving the fewest seats |
| Allocation.BestFitUnique | service/car_pooling/CarPooling.py:95-99 | any car meeting the reference best-fit definition is the one chosen |
| Allocation.TryJourney | service/car_pooling/CarPooling.py:86-101 | an invalid request gets BAD_REQUEST; any other nonzero answer is the id of a car in the pool |
| Allocation.BadRequestIffInvalid | service/car_pooling/CarPooling.py:128-134 | `is_valid` (`IsValidJourney`) decides BAD_REQUEST: an id below 1 or passengers outside 1 to 6 always get -1, and with no car of id -1 only those do |
| Allocation.TryJourneyIsBestFit | service/car_pooling/CarPooling.py:86-101 | a valid request gets NOT_ALLOCATED when no car fits, otherwise the id of the best-fit car |
| Allocation.PrimaryAttempt | service/car_pooling/CarPooling.py:60-69 | answer -1 leaves the state unchanged; answer 0 records the request as waiting with its passengers, pool and record untouched; any other answer is a pool car that leaves the pool and is recorded under the request, the waiting list untouched |
| Allocation.PrimaryAttemptOutcome | service/car_pooling/CarPooling.py:60-69 | invalid: BAD_REQUEST with the state unchanged; no fit: enqueued and 0; fit: car popped, allocation recorded, car id returned; a best-fit id of 0 or -1 acts as that sentinel |
| Allocation.WaitingStep | service/car_pooling/CarPooling.py:51-57 | one retry never adds a car or a waiting request and never deletes an allocation |
| Allocation.WaitingStepOutcome | service/car_pooling/CarPooling.py:51-57 | a waiting entry with no fit is untouched; otherwise its best-fit car is popped, the entry dequeued, and the car recorded under the incoming id (as written) or the entry's id |
| Allocation.WaitingPass | service/car_pooling/CarPooling.py:48-57 | the whole retry loop never adds a car or a waiting request and never deletes an allocation |
| Allocation.WaitingPassShape | service/car_pooling/CarPooling.py:48-57 | the pass pops at most one car per entry and nothing else from the pool, keeps remaining entries' values, never deletes an allocation, and as written changes only the incoming id's allocation |
| Allocation.WaitingPassNoFit | service/car_pooling/CarPooling.py:48-57 | when no car fits any entry the pass changes nothing |
| Allocation.Journey | service/car_pooling/CarPooling.py:46-69 | an invalid request is answered -1; no car is added; a car answered was in the pool, has left it, and is recorded under the request |
| Allocation.JourneyOnlyRemovesCars | service/car_pooling/CarPooling.py:55-67 | `journey` leaves the old pool minus at most one car per waiting entry plus one, seat counts unchanged |
| Allocation.JourneyRejected | service/car_pooling/CarPooling.py:46-62 | an invalid request is answered BAD_REQUEST after the waiting pass has still run |
| Allocation.JourneyNoWaitingFit | service/car_pooling/CarPooling.py:46-69 | when no waiting entry fits, `journey` is its primary attempt alone |
| Allocation.NoFitWithout | service/car_pooling/CarPooling.py:55 | popping cars cannot make a car fit a demand that none fitted |
| Allocation.JourneyQueues | service/car_pooling/CarPooling.py:46-65 | a valid request that no car of the pool fits is, after the waiting pass, enqueued and answered 0 |
| Allocation.JourneyAllocates | service/car_pooling/CarPooling.py:46-69 | a valid request takes the best-fit car of the pool left by the waiting pass: the car leaves the pool and is recorded under the request; a car id of -1 or 0 acts as that sentinel |
| Allocation.WaitingPassKeepsInv | service/car_pooling/CarPooling.py:48-57 | the waiting pass keeps every dict's keys distinct and every waiting entry valid |
| Allocation.JourneyKeepsInv | service/car_pooling/CarPooling.py:63-64 | after `journey` every waiting request still has a positive id and 1 to 6 passengers |
| Allocation.WaitingPassToWaitingAccounts | service/car_pooling/CarPooling.py:56-57 | recorded under the waiting id, every request waiting before the pass is still waiting or allocated after it |
| Allocation.JourneyToWaitingAccounts | service/car_pooling/CarPooling.py:46-69 | with that recording, `journey` loses no waiting request |
| CarPoolingService.JourneyRequest.constructor | service/car_pooling/CarPooling.py:109-112 | the waiting list starts empty |
| CarPoolingService.JourneyRequest.Add | service/car_pooling/CarPooling.py:114-115 | the new list is the old one with the key assigned |
| CarPoolingService.JourneyRequest.Remove | service/car_pooling/CarPooling.py:117-122 | answers the id iff it was waiting, otherwise None; the id is no longer waiting and nothing else changes |
| CarPoolingService.JourneyRequest.IsWaiting | service/car_pooling/CarPooling.py:124-125 | true iff some waiting pair has that id |
| CarPoolingService.JourneyLocation.constructor | service/car_pooling/CarPooling.py:143-144 | the allocation record starts empty |
| CarPoolingService.JourneyLocation.Add | service/car_pooling/CarPooling.py:146-147 | the new record is the old one with the journey mapped to the car |
| CarPoolingService.JourneyLocation.IsAllocated | service/car_pooling/CarPooling.py:149-153 | answers a car iff the journey has an allocation, and then the car recorded for it |
| CarPoolingService.CarPooling.constructor | service/car_pooling/CarPooling.py:9-27 | the filtering loop leaves exactly the pool of valid cars of the built dict (None meaning no pairs); empty waiting list and record; the invariant holds |
| CarPoolingService.CarPooling.Cars | service/car_pooling/CarPooling.py:32-37 | None leaves the pool; otherwise the pool is the dict of the pairs, unvalidated; waiting list and record untouched |
| CarPoolingService.CarPooling.Add | service/car_pooling/CarPooling.py:39-44 | upserts the car without validation and answers its id; waiting list and record untouched |
| CarPoolingService.CarPooling.TryJourney | service/car_pooling/CarPooling.py:86-101 | the scanning loop answers the best-fit function's value and changes nothing |
| CarPoolingService.CarPooling.RetryOne | service/car_pooling/CarPooling.py:51-57 | one step of the waiting loop has the effect of one waiting step |
| CarPoolingService.CarPooling.RetryWaiting | service/car_pooling/CarPooling.py:47-57 | the loop over the snapshot has the effect of the waiting pass |
| CarPoolingService.CarPooling.Attempt | service/car_pooling/CarPooling.py:59-69 | the primary attempt's effect and answer |
| CarPoolingService.CarPooling.Journey | service/car_pooling/CarPooling.py:46-69 | the new state and answer are the pure `journey` as written; the invariant is kept |
| CarPoolingService.CarPooling.JourneyIntended | service/car_pooling/CarPooling.py:46-69 | the same with waiting-pass allocations recorded under the waiting id; no waiting request is lost |
| CarPoolingService.CarPooling.DropOff | service/car_pooling/CarPooling.py:71-72 | answers the id iff it was waiting and dequeues it; pool and record unchanged |
| Scenarios.LoadDropsInvalidCars | service/test/car_pooling.py:11-19 | loading `(1,-2),(-2,3),(3,0),(0,4),(2,3),(6,7)` keeps only car 2 with 3 seats |
| Scenarios.LoadLastDuplicateWins | service/test/car_pooling.py:52-54 | loading `(1,4),(1,3),(1,1),(1,7)` keeps `1:7`, which is dropped: the pool is empty, and `journey(1, 4)` is queued and answered 0 |
| Scenarios.BestFitOnlyCandidate | service/test/car_pooling.py:27-29 | demand 5 in `{1:3, 2:4, 3:6}` gets car 3 |
| Scenarios.BestFitLeastLeftover | service/test/car_pooling.py:47-49 | demand 1 in `{1:3, 4:4, 7:6}` gets car 1 |
| Scenarios.NoFitQueues | service/test/car_pooling.py:32-39 | five passengers with no fitting car, or no car, are queued and answered 0 |
| Scenarios.TooManyPassengersRejected | service/test/car_pooling.py:42-44 | seven passengers are answered -1 and nothing changes |
| Scenarios.SentinelCollision | service/car_pooling/CarPooling.py:60-62 | a best-fit car with id -1 makes a valid request look rejected: answered -1, state unchanged |
| Scenarios.QueueJourneyOne | service/test/car_pooling.py:57-59 | six passengers in `{1:3, 2:2, 3:1, 4:3}` are queued |
| Scenarios.DropOffTwice | service/test/car_pooling.py:57-61 | on the classes: `journey(1, 6)` answers 0, the first `drop_off(1)` answers 1, the second None |
| Scenarios.QueueJourneyTwo | service/test/car_pooling.py:67 | journey 2 with six passengers is queued behind journey 1 and answered 0 |
| Scenarios.AllocateJourneyThree | service/test/car_pooling.py:68 | journey 3 with one passenger gets car 3 while 1 and 2 wait |
| Scenarios.QueueJourneyFour | service/test/car_pooling.py:69 | journey 4 with six passengers is queued behind 1 and 2 |
| Scenarios.ReloadWaitingPass | service/test/car_pooling.py:73-74 | after the reload the waiting pass gives car 5 to journey 2, recorded under 5 as written |
| Scenarios.AsWrittenLosesWaitingJourney | service/car_pooling/CarPooling.py:57 | `journey(5, 6)` after the reload leaves journey 2 neither waiting nor allocated, while journey 5 is both |
| Scenarios.IntendedKeepsWaitingJourney | service/car_pooling/CarPooling.py:57 | recorded under the waiting id, journey 2 holds car 5 and journey 5 waits |
| Scenarios.AllocateJourneySix | service/test/car_pooling.py:75 | journey 6 with four passengers gets car 6 |
| Scenarios.QueueJourneySeven | service/test/car_pooling.py:76-77 | journey 7 is queued: two requests wait |
| Scenarios.AllocateJourneyEight | service/test/car_pooling.py:80-81 | journey 8 with three passengers gets car 4 |
| Scenarios.WaitingListBeforeReload | service/test/car_pooling.py:64-72 | the first half of the waiting-list test on the classes ends with car 3 taken, journey 2 alone waiting, journey 3 on car 3 |

## Left out

- `status` (service/car_pooling/CarPooling.py:29-30) does nothing.
- `location` (service/car_pooling/CarPooling.py:74-75) discards the lookup and always answers None; the lookup itself is `JourneyLocation.IsAllocated`.
- `None` as an id or a seat count is not modelled: ids and seats are integers. The `is None` checks of `_is_valid` and `is_valid` are therefore not represented. `None` as the whole argument of the constructor or of `cars` is modelled with `Option`.
- The `try/except` of `add` only catches Python runtime errors (an unhashable key), which integer keys cannot raise.
- The `isinstance(..., dict)` branches (service/car_pooling/CarPooling.py:17-18, 35-36) are overwritten by the next line; a dict argument is modelled as its pairs.
- Argument shapes that make `dict(...)` raise (a pair that is not a 2-tuple) are not modelled.
- `manage.py` (the HTTP routing, header checks and status codes) and `IService.py` (an interface with no behaviour) are not part of this model.
- The optional `_journey_request` argument of the `JourneyRequest` constructor (service/car_pooling/CarPooling.py:109-112) is not modelled: its only call site (line 26) never passes it, so the waiting list always starts empty.
- Concurrency: the engine is single-threaded; any locking belongs to the web host.
- `Scenarios.WaitingListAfterReload` checks the second half of the waiting-list test on the classes with assertions only; it has no postcondition of its own.

## Findings

| source | as written | input that shows it | evidently intended | confidence | as-written member | corrected member |
|---|---|---|---|---|---|---|
| service/car_pooling/CarPooling.py:57 | an allocation found for waiting request `waiting_id` is recorded under the incoming `journey_id` | pool `{1:5, 2:2, 3:1, 4:3, 5:6, 6:4}`, waiting `{2:6}`, record `{3:3}`, then `journey(5, 6)`: car 5 is recorded as `5:5`, journey 2 is in neither the waiting list nor the record, and journey 5 is queued as well as recorded | record the car under `waiting_id`, so every dequeued request is allocated | high; not executed | Scenarios.AsWrittenLosesWaitingJourney | Allocation.JourneyToWaitingAccounts |
