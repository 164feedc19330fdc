# Verification of the airline booking system's protocols

A Dafny model of the four pieces of state that have to stay right in the airline booking system, with
proofs about all their runs:

1. **Multi-instance Paxos** (`Paxos*.dfy`, `Codec.dfy`): replicas that each play coordinator, learner
   and acceptor behind one packet loop, execute the committed log in order, retry what is not known to
   be committed, and tag commands so that retries are recognised.
2. **Two-phase commit of bookings** (`Transactions.dfy`, `Libairline.dfy`, `TranLayer.dfy`,
   `AirlineParticipant.dfy`, `SeatLedger.dfy`, `SeatLocks.dfy`, `SeatAccounts.dfy`, `BookedSeats.dfy`,
   `BookingSystem.dfy`, `BookingSteps.dfy`, `BookingAtomicity.dfy`, `BookingLimits.dfy`, `ClientSteps.dfy`,
   `ClientAnswers.dfy`, `VotesTally.dfy`, `VotesHeard.dfy`, `ReplicatedAirline.dfy`): the front end that
   groups flights into orders, the agency that tallies votes and the airline that prepares, locks, logs and
   applies.
3. **The lease-granting storage server** (`SimpleStore.dfy`, `StorageServer.dfy`, `StorageRuns.dfy`,
   `StorageConsistency.dfy`, `StorageRefinement.dfy`, `StoreReplies.dfy`, `StorageDrain.dfy`,
   `StorageLeases.dfy`) with its timers, bans and deferred writes, and the two linked structures it uses (`HashList.dfy`, `Buf.dfy`).
4. **Key ownership** (`ConsistentHash.dfy`): the scan of the server list that clients and servers both
   run.

`Options.dfy` and `Strings.dfy` hold what they share: options, and what is used of Go's strconv and
strings packages.

## How it is built

Every handler appears twice. A class with the handler's own fields has methods that follow the Go code
step by step; their postconditions say that the new state and the output are what a `Step`
function on values gives. The theorems are about runs of `Step`: a world holds all nodes and the network
(or the timers), an event is one delivery, request or timeout, and any order of events is a run. What each
handler knows and answers is said once more over the events alone, without `Step`: what acceptors, learners
and coordinators do (`PaxosRoles`, `PaxosLearning`, `PaxosProposing`, `PaxosRecovery`), when and with what
outcome a transaction ends and who is told (`VotesHeard`), what an executed command does to an airline
(`ReplicatedAirline`), who holds a lock or a lease (`SeatLocks`, `StorageLeases`) and what a storage answer
has to be (`StoreReplies`).

- Paxos: the network is a growing set of packets. A packet may be delivered late, several times or
  never, in any order. PROPOSE, LEARN and EPOCH packets only reach the replica that queued them. Each
  PREPARE_OK on the network also records, for the proofs only, which ballot it answers; the message
  itself does not say.
- Bookings: INIT messages are delivered at most once, votes and decisions any number of times, and a
  replicated airline is one participant. Creating a flight may happen at any moment, and so may the one
  expiry of a transaction. A client takes one answer and leaves; an agency that has nobody to give an
  answer to, or panics, handles nothing any more. Transaction ids are not reused.
- Storage: a timer sleeps, then offers its expiry, and ends when the expiry is taken or when the loop
  tells it to stop. Clients may give back any lease at any time. Lists are their contents, as the hash
  list is proved to represent them.

## What the proofs found

- **PREPARE_OK carries no ballot** (contrib/libpaxos/acceptor.go:48) and is counted by instance only.
  `StaleAnswersDisagree` builds, for every cluster of two or more replicas and every quorum size, a run
  that commits two values, so only a single replica always agrees (`AlwaysAgreesIffAlone`). Agreement holds
  for runs in which every counted PREPARE_OK answers the ballot its coordinator is running (`Disciplined`).
- **The quorum is n/2 + n%2**, which is a majority exactly when n is odd. `AgreementIffOdd` shows that
  disciplined runs always agree exactly for odd n.
- **Expiry sends whatever has been decided so far.** `ExpirySafeIff`: what the expiry of an active
  transaction says agrees with every way its missing votes may turn out exactly when an ABORT vote has
  been counted. `EarlyExpirySplits` is a run in which one airline is told both COMMIT and ABORT, after
  the client has heard that the booking succeeded.
- **An early expiry stops the agency, even a consistent one.** The client takes the answer of the expiry
  and leaves, so the last vote's answer has no receiver and blocks the request loop
  (contrib/tranlayer/coordinator.go:173-178). `AgencyStopsIff`: an agency stops exactly when a transaction
  that expired while it waited for votes ends, or when it is given a booking without orders.
- **A booking without orders panics the agency**, which takes an order from an empty list
  (contrib/tranlayer/tranlayer.go:128). `NoFlightsNoOrders`: MakeBooking asks for it exactly when it is
  called without flights.
- **Participants are counted by airline, not by order.** `TallyMatchesOrders`: the agency waits for as
  many votes as there are orders exactly when no airline has two of them. Otherwise the client may hear
  success although the airline refuses an order (`TwoOrdersOneAirline`), or accepts it and forgets the
  one before (`SecondOrderReplacesFirst`). MakeBooking, the only caller of BookingFlights here, groups
  flights by airline and is safe whatever the flights, as long as airlines have addresses of their own
  (`OneOrderPerAirline`); only another caller can send two orders for one airline.
- **A prepare can leave a lock without a log.** `VotesCommitIff`: an airline votes COMMIT exactly if every
  flight of the order exists, has the seats and is free, and none is named twice. `PrepareStrandsIff`: such a
  prepare strands a flight exactly when the transaction is prepared already, whose log it overwrites; any
  other does exactly when its first flight exists, has the seats and is free. `StrandedForever`: such a
  flight is never sold or unlocked again.
- **A late vote is not answered.** The code means to tell the voter the logged decision, but sends it to
  the agency's own address, because the inner `args` hides the vote's (contrib/tranlayer/coordinator.go:111-115).
- **Flight ids are joined with ':'.** `FlightsArriveIff` says which flight lists an airline gets back.
- **A flight's airline is what stands before the first '-' of its id.** `NewFlightFoundIff`: a new flight
  leads back to its airline exactly if the airline's name contains no '-'.
- **Commands survive the encoding** exactly when the caller's address and the arguments contain neither
  `@` nor `$$` (`DeliveredUnchanged`).
- **A lease need not cover the value just read**: the read and the lease are two requests
  (`LeaseMayFollowWrite`). `LeaseCoversReadIff`: the leased value is the one read exactly when the writes
  on the key that were answered in between leave it as it was, so whenever there were none. A leased value
  does not change (`LeaseSafety`).

Commit, validity, ballot uniqueness, in-order execution and the absence of lost proposals need neither
of the two agreement hypotheses.

## Model

| member | source | states |
|---|---|---|
| PaxosCoordinator.Coordinator.NewProposalNumber | contrib/libpaxos/coordinator.go:45-54 | returns the next ballot and moves on, by whole strides, to at least the highest rejection seen |
| PaxosCoordinator.SkipBelowKeepsResidue | contrib/libpaxos/coordinator.go:45-54 | the skip never moves back, ends at or above the rejecting ballot and stays in the residue class of the node position |
| PaxosCoordinator.Coordinator.Operate | contrib/libpaxos/coordinator.go:61-124 | the in-place coordinator does exactly the specified step on every packet, including overwritten records after the instance counter has moved back |
| PaxosCoordinator.Coordinator.CountPrepareOk | contrib/libpaxos/coordinator.go:87-119 | counts each answering replica once, keeps the value of the highest reported vote, and proposes once, on quorum |
| PaxosAcceptor.Acceptor.Operate | contrib/libpaxos/acceptor.go:29-70 | the in-place acceptor does exactly the specified step |
| PaxosLearner.Learner.Operate | contrib/libpaxos/learner.go:46-110 | the in-place learner does exactly the specified step, with the instance and value it reports |
| PaxosLearner.Learner.GetHistory | contrib/libpaxos/learner.go:35-44 | the loop returns exactly the committed instances with their values |
| PaxosReplica.Libpaxos.HandleOperate | contrib/libpaxos/libpaxos.go:132-199 | one packet through bookkeeping, coordinator, learner, execution or recovery, and acceptor, with everything broadcast and queued, is the specified replica step |
| PaxosReplica.Libpaxos.ExecuteLog | contrib/libpaxos/libpaxos.go:173-178 | the loop executes the instances after the last executed one, in order, each value once |
| PaxosReplica.Libpaxos.Recover | contrib/libpaxos/libpaxos.go:181-187 | asks for exactly the missing instances below the highest learnt one |
| PaxosReplica.Libpaxos.ProposeCommand | contrib/libpaxos/libpaxos.go:210-224 | queues a PROPOSE with the tagged command and advances the counter |
| PaxosSafety.BallotNeverReused | contrib/libpaxos/coordinator.go:45-79 | in every run no two PREPAREs, of any replicas and instances, have the same ballot |
| PaxosSafety.BallotHasOneValue | contrib/libpaxos/coordinator.go:87-119 | in every run all ACCEPT and ACCEPT_OK packets with one instance and ballot carry one value |
| PaxosSafety.CommittedIsChosenAndProposed | contrib/libpaxos/learner.go:70-107 | in every run a committed value was proposed by some replica and voted for at one ballot by at least a quorum of acceptors, all of them replicas of the cluster, also when it was learnt through COMMIT |
| PaxosSafety.CommittedForever | contrib/libpaxos/learner.go:58-107 | in every run a committed value never changes |
| PaxosRoles.AcceptorRemembers | contrib/libpaxos/acceptor.go:30-71 | in every run an acceptor's record of an instance is the highest ballot it has been asked to promise or accept, and ballot and value of the last proposal it accepted |
| PaxosRoles.PrepareAnswered | contrib/libpaxos/acceptor.go:44-52 | in every run a PREPARE above everything asked before is answered by PREPARE_OK with the last vote, any other by PREPARE_REJECT with the ballot above it |
| PaxosRoles.AcceptAnswered | contrib/libpaxos/acceptor.go:55-68 | in every run a proposal not below anything asked before is voted for, and one below is rejected |
| PaxosRoles.BallotTaken | contrib/libpaxos/coordinator.go:45-79 | in every run a replica opens an instance with its current ballot and moves to the first ballot of its residue class that is later and not below the last rejection handled; nothing else moves it |
| PaxosRoles.BallotsPassRejection | contrib/libpaxos/coordinator.go:45-54 | in every run, after a rejection has been handled and one more ballot taken before the next rejection, every instance is opened with a ballot no lower than what the rejecting acceptor had been asked for |
| PaxosProposing.ProposesOnQuorum | contrib/libpaxos/coordinator.go:87-119 | in every run, with the first quorum of answers since an instance was opened, its coordinator proposes at the ballot it was opened with the value of the highest vote reported, or else its own command |
| PaxosLearning.LearnsIff | contrib/libpaxos/learner.go:46-107 | in every run a replica has committed an instance exactly if it was sent a COMMIT for it or had votes of a quorum for the highest ballot it had heard of |
| PaxosRecovery.MissingAsked | contrib/libpaxos/coordinator.go:80-84 | in every run a replica that handles its queued LEARN asks everybody for the instance |
| PaxosRecovery.RecoveryAnswered | contrib/libpaxos/learner.go:59-68 | in every run a replica that has committed an instance answers a NOP for it with the value |
| PaxosRecovery.CommitTaken | contrib/libpaxos/learner.go:101-107 | in every run a replica commits the value it is told, unless it has committed the instance |
| PaxosRecovery.GapCanBeClosed | contrib/libpaxos/libpaxos.go:181-187 | whenever a replica misses an instance it has queued a LEARN for and another has committed it, three deliveries close the gap with that value |
| PaxosRecovery.LearningTells | contrib/libpaxos/libpaxos.go:154-195 | in every run a replica that learns from votes tells everybody, stops retrying the value, and continues behind the instance if it knows of no later one |
| PaxosQuorums.QuorumsMeetIffOdd | contrib/airlineimpl/airlineimpl.go:98 | any two quorums of n/2 + n%2 replicas share one exactly when n is odd |
| PaxosAgreement.ChosenIsFinal | contrib/libpaxos/coordinator.go:87-119 | in every disciplined run of an odd number of replicas, once a quorum has voted for a value at a ballot, every proposal of that instance from that ballot on carries it |
| PaxosAgreement.Agreement | contrib/libpaxos/coordinator.go:87-119 | in every disciplined run of an odd number of replicas, all commits of an instance, at any replicas, at any times and through votes, COMMIT or recovery, carry one value |
| PaxosDisagreement.EvenClusterDisagrees | contrib/airlineimpl/airlineimpl.go:98 | for every even number of replicas, whatever their positions, there is a disciplined run that commits two values |
| PaxosDisagreement.AgreementIffOdd | contrib/airlineimpl/airlineimpl.go:98 | disciplined runs always agree exactly when the number of replicas is odd |
| PaxosDisagreement.StaleAnswersDisagree | contrib/libpaxos/acceptor.go:44-48 | for every cluster of at least two replicas, whatever their positions, and every quorum size from 1 to all of them, counting PREPARE_OK by instance alone lets a run commit two values |
| PaxosDisagreement.AlwaysAgreesIffAlone | contrib/libpaxos/coordinator.go:87-119 | runs in which PREPARE_OKs may be counted for any ballot always agree exactly when there is one replica |
| PaxosReplication.GapFreeIffFull | contrib/libpaxos/libpaxos.go:160-166 | a history within 1..h has h entries exactly when no instance is missing |
| PaxosReplication.GapFreeExecution | contrib/libpaxos/libpaxos.go:154-188 | in every run committed instances lie in 1..highestLearnt, nothing missing is ever executed, and the executed list is the list of first occurrences in the log up to the last executed instance |
| PaxosReplication.ExecutedGrows | contrib/libpaxos/libpaxos.go:251-257 | in every run the executed list only grows at its end |
| PaxosReplication.ReplicasExecuteInOneOrder | contrib/libpaxos/libpaxos.go:154-188 | state machine replication: in every disciplined run of an odd number of replicas the executed lists of any two replicas are prefix-ordered, before and after the tags are removed, and hold no value twice |
| PaxosReplication.DifferentCallsDifferentValues | contrib/libpaxos/libpaxos.go:210-224 | in every run two ProposeCommand calls produce different values, so suppressing duplicates drops retries only |
| PaxosReplication.NoProposalLost | contrib/libpaxos/libpaxos.go:136-144 | in every run a value whose PROPOSE a replica has handled is kept for retry or is committed in that replica's own log |
| PaxosReplication.LearningCatchesUp | contrib/libpaxos/libpaxos.go:154-188 | in every run a replica that learns an instance then has executed its whole log, or misses instances and asks for every one below the highest learnt |
| PaxosReplication.EpochRetries | contrib/libpaxos/libpaxos.go:139-143 | in every run an epoch proposes again every handled value that is not in the replica's own log |
| Codec.ModifiedRoundTrip | contrib/libpaxos/libpaxos.go:222-229 | untagging gives the command back exactly when it contains no "$$" |
| Codec.TagFields | contrib/libpaxos/libpaxos.go:222-224 | a tagged value splits at "$$" into position, counter and the fields of the command |
| Codec.ModifiedInjective | contrib/libpaxos/libpaxos.go:222-224 | tagged values are equal exactly when position, counter and command are |
| Codec.DecodeEncode | contrib/airlineimpl/paxos.go:96-102 | decoding recovers number, caller and operation, and the arguments up to their first '@' |
| Codec.DeliveredUnchanged | contrib/airlineimpl/paxos.go:96-107 | through tagging and both encodings a command arrives unchanged exactly when caller and arguments contain no '@' and no "$$" |
| Libairline.MakeBooking | contrib/libairline/libairline.go:130-169 | one order for each airline of the booking, in any order, with exactly its flights joined in the order asked for and the amount 1 or -1; if airlines have different addresses, no two orders share a participant |
| Libairline.OneOrderPerAirline | contrib/libairline/libairline.go:152-169 | when airlines have different addresses, the orders of a booking go to different participants, so the agency waits for a vote on every order |
| Libairline.EachFlightOrdered | contrib/libairline/libairline.go:139-150 | grouping loses and invents nothing: each flight is ordered as often as it was asked for, from its own airline only |
| Libairline.FlightsInOrder | contrib/libairline/libairline.go:139-150 | the flights of an order stay in the order in which they were asked for |
| Libairline.FlightsArriveIff | contrib/libairline/libairline.go:155-163 | splitting the joined flight ids at ':' gives the flights back exactly when no id contains ':' and the first one is not empty, unless it is alone |
| Libairline.NoFlightsNoOrders | contrib/libairline/libairline.go:139-169 | BookingFlights is called without orders exactly when no flights are given |
| Libairline.NewFlightFoundIff | official/tribproto/tribproto.go:40-48 | the airline of a newly made flight id is the airline it was made for exactly if that name contains no '-' |
| TranLayer.Agency.Begin | contrib/tranlayer/tranlayer.go:123-146 | a new transaction is recorded with one undecided entry per participant, and every order goes out before the next request is looked at; a booking without orders panics |
| TranLayer.TallyMatchesOrders | contrib/tranlayer/coordinator.go:71-79 | the tally has as many entries as there are orders exactly when no two orders are for one airline |
| TranLayer.Agency.Response | contrib/tranlayer/coordinator.go:93-180 | the vote handler is the specified step: duplicate, unknown and late votes change and send nothing (the decision meant for a late voter goes to the agency itself), the others are counted, and the last one ends the transaction with its messages and reply |
| TranLayer.Agency.Expire | contrib/tranlayer/coordinator.go:193-221 | the expiry handler sends the decision so far to those who voted COMMIT and replies, and forgets nothing |
| TranLayer.CountKeepsTally | contrib/tranlayer/coordinator.go:129-142 | the counter is the number of participants that voted, and with the last vote the decision is COMMIT exactly when nobody voted ABORT |
| VotesHeard.OrdersGoOut | contrib/tranlayer/tranlayer.go:123-146 | in every run each order of a booking goes to its participant with its flights and amount |
| VotesHeard.EndsIffAllHeard | contrib/tranlayer/coordinator.go:129-172 | in every run, orderly or not, a transaction has ended exactly if a vote of every participant has been delivered, and is logged as ABORT if some first vote was ABORT, as COMMIT otherwise |
| VotesHeard.WhoIsTold | contrib/tranlayer/coordinator.go:149-221 | in every run, exactly when a transaction ends or expires before, the outcome of the votes heard so far goes to exactly those whose first vote is COMMIT, and to the client if it still waits |
| TranLayer.ExpirySafeIff | contrib/tranlayer/coordinator.go:193-221 | what the expiry of an active transaction says agrees with every possible end of it exactly when an ABORT has been counted |
| AirlineParticipant.AirlineServer.GetFlightLock | contrib/airlineimpl/airlineimpl.go:283-290 | takes the lock exactly when it is free |
| AirlineParticipant.AirlineServer.NewFlight | contrib/airlineimpl/airlineimpl.go:219-241 | adds a flight exactly when it does not exist yet |
| AirlineParticipant.AirlineServer.Init | contrib/airlineimpl/participant.go:31-87 | the prepare loop is the specified one: it stops at the first flight that is unknown, sold out or locked, keeps the locks taken, and logs only a complete preparation |
| AirlineParticipant.VotesCommitIff | contrib/airlineimpl/participant.go:41-61 | an airline votes COMMIT exactly if every flight of the order exists, has the seats and is free, and none is named twice |
| AirlineParticipant.AirlineServer.Response | contrib/airlineimpl/participant.go:89-128 | the decision loops write each logged slot, free each logged lock and forget the log, or only free the locks |
| SeatLedger.SeatsConserved | contrib/airlineimpl/participant.go:105-126 | in every run a flight's slots are its initial slots minus what its committed records took |
| SeatLedger.NeverOverbooked | contrib/airlineimpl/participant.go:41-61 | in every run slots created non-negative stay non-negative, for any amounts |
| SeatLedger.PreparedRecordsStayValid | contrib/airlineimpl/participant.go:49-58 | in every run each outstanding record's flight is locked, occurs in no other record and still has the slots recorded, so writing the new value is the intended decrement |
| SeatLedger.AppliedAtMostOnce | contrib/airlineimpl/participant.go:98-126 | in every run a transaction is applied at most as often as it was prepared, and an outstanding log has not been applied |
| SeatLedger.PrepareStrandsIff | contrib/airlineimpl/participant.go:41-84 | a prepare leaves some flight locked without a log, be it a flight it locks or one prepared before, exactly when all its flights can be prepared but the transaction is prepared already, or not all of them can but the first one exists, has the seats and is free |
| SeatLedger.StrandedForever | contrib/airlineimpl/participant.go:41-61 | no later requests unlock such a flight or change its slots |
| SeatLocks.DecisionFreesLocks | contrib/airlineimpl/participant.go:105-126 | in every state a run can reach, a decision on a prepared transaction frees exactly the flights of its log and forgets the log, and any other changes nothing |
| SeatLocks.DecisionStrandsNone | contrib/airlineimpl/participant.go:105-126 | no decision strands a flight |
| SeatLocks.LockedIff | contrib/airlineimpl/participant.go:41-126 | in every run a flight is locked exactly if an outstanding log is for it or an earlier prepare has stranded it |
| ReplicatedAirline.ReplicasHoldOneLedger | contrib/airlineimpl/paxos.go:96-171 | in every disciplined run of an odd number of replicas, two replicas of an airline that have executed equally many commands, at whatever moments, hold the same ledger, and otherwise one ledger is reached from the other by the commands still to be executed |
| ReplicatedAirline.FlightCreated | contrib/airlineimpl/airlineimpl.go:219-241 | an executed CF command that no separator cuts creates its flight with its slots, unless there is one |
| ReplicatedAirline.OrderPrepared | contrib/airlineimpl/airlineimpl.go:170-174 | an executed TRANS_INIT locks and logs each flight of an order that can be prepared, and leaves slots and logs alone otherwise |
| ReplicatedAirline.DecisionApplied | contrib/airlineimpl/airlineimpl.go:170-174 | an executed TRANS_RESPONSE on a prepared transaction takes each record's seats for COMMIT only, frees its flights, forgets the log and remembers the vote; otherwise it does nothing |
| ReplicatedAirline.OthersAsk | contrib/airlineimpl/paxos.go:127-171 | no other executed command changes the airline |
| BookingAtomicity.Atomicity | contrib/tranlayer/coordinator.go:93-180 | in every orderly run all decisions sent, all outcomes applied and all client answers of a transaction agree; it ends in COMMIT exactly when every participant voted COMMIT, and everyone who did is told |
| BookingAtomicity.Everywhere | contrib/airlineimpl/participant.go:84-126 | in every orderly run a participant that voted COMMIT still holds its log or has applied the outcome, and delivering the agency's decision leaves it with that outcome |
| BookedSeats.AirlineKeepsLedger | contrib/airlineimpl/participant.go:31-128 | in every run, orderly or not, each airline's state is that of the seat ledger after the requests it was given, so conservation and no overbooking hold in the whole system |
| BookedSeats.SeatsFollowAnswers | contrib/airlineimpl/participant.go:98-126 | in every orderly run an airline that knows a booking's outcome has taken the order's seats from each ordered flight, or none from any, as the outcome says, and its slots are the initial ones less these and what other bookings took; a client that heard success means COMMIT |
| ClientAnswers.OneAnswer | contrib/tranlayer/coordinator.go:173-221 | in every run a client hears one answer at most, and hears one exactly if its transaction expired early or has ended |
| ClientAnswers.AgencyStopsIff | contrib/tranlayer/coordinator.go:173-178 | in every run an agency has stopped exactly if it was given a booking without orders or a transaction that expired early has ended |
| BookingLimits.EarlyExpirySplits | contrib/tranlayer/coordinator.go:193-221 | a run with an early expiry tells one participant both outcomes after the client has heard success, and stops the agency |
| BookingLimits.TwoOrdersOneAirline | contrib/tranlayer/coordinator.go:71-78 | a run with two orders for one airline confirms the booking although the airline refuses one of them |
| BookingLimits.SecondOrderReplacesFirst | contrib/airlineimpl/participant.go:84 | a run with two orders for one airline confirms the booking and applies COMMIT, but the first flight is not sold and stays locked for good |
| HashList.HashList.Insert | contrib/storageimpl/hashlist.go:26-38 | on linked nodes, map and count: appends a value that is absent |
| HashList.HashList.Remove | contrib/storageimpl/hashlist.go:42-60 | takes that value out, if present, and keeps the order of the rest, all links, the map and the count |
| HashList.HashList.Exist | contrib/storageimpl/hashlist.go:62-65 | answers whether the value is in the list |
| HashList.HashList.List | contrib/storageimpl/hashlist.go:67-75 | a fresh array with the whole list in order |
| HashList.WithoutElements | contrib/storageimpl/hashlist.go:42-60 | removal takes out exactly that value and leaves the others distinct, one fewer if it was there |
| HashList.InsertRemove | contrib/storageimpl/hashlist.go:26-60 | inserting a new value and removing it restores the list |
| Buf.Buf.Insert | contrib/storageimpl/bufi.go:19-28 | the linked queue grows at its end |
| Buf.Buf.Remove | contrib/storageimpl/bufi.go:35-42 | takes the oldest element, or reports none |
| Buf.Buf.Front | contrib/storageimpl/bufi.go:30-33 | reports the oldest element without taking it, or none |
| Buf.Buf.Empty | contrib/storageimpl/bufi.go:44-46 | true exactly when nothing is queued |
| Buf.Buf.Flush | contrib/storageimpl/bufi.go:48-51 | leaves a queue with nothing in it |
| SimpleStore.HistoryKeepsDistinct | contrib/storageimpl/storageimpl.go:436-457 | after any history no list holds a value twice, so Insert is only used for absent values |
| StorageServer.AppHandler.Handle | contrib/storageimpl/storageimpl.go:331-668 | the event loop over the four maps is the specified step for every request, with its replies in order, the timers it starts and stops and the clients it asks for their leases |
| StorageServer.AppHandler.Process | contrib/storageimpl/storageimpl.go:411-494 | the first copy of the write logic, and the reads, are the sequential store's operation |
| StorageServer.AppHandler.DrainRevoked | contrib/storageimpl/storageimpl.go:536-594 | the second copy, after a revocation: all deferred writes in order, each as the sequential store does it |
| StorageServer.AppHandler.DrainExpired | contrib/storageimpl/storageimpl.go:606-663 | the third copy, after an expiry: the same |
| StorageServer.PreCheckAgrees | contrib/storageimpl/storageimpl.go:335-377 | a write answered before the deferring check gets the reply, and has the lack of effect, that the sequential store gives it at that point |
| StorageRefinement.PassesIffChanges | contrib/storageimpl/storageimpl.go:335-377 | the pre-check lets a request through exactly when it would change the store |
| StorageRefinement.WaitsIffChangesLeased | contrib/storageimpl/storageimpl.go:378-408 | in every run a data request waits exactly when it would change a leased key, and then every holder of a lease on it is asked to give it back |
| StorageRefinement.SequentialStore | contrib/storageimpl/storageimpl.go:331-669 | every run is a legal history of the sequential store: the data requests, in the order of their answers, have its replies and leave its contents |
| StorageRefinement.AnsweredExactlyOnce | contrib/storageimpl/storageimpl.go:378-408 | in every run no request is answered twice, and one is unanswered exactly while it is a write waiting for leases on its key |
| StorageRefinement.WritesInArrivalOrder | contrib/storageimpl/storageimpl.go:540-594 | in every run the writes on one key that pass the pre-check take effect in the order they arrived, deferred or not |
| StorageRefinement.RealTimeOrder | contrib/storageimpl/storageimpl.go:331-669 | the sequential order respects real time: a request answered before another arrives precedes it |
| StorageRefinement.LeaseRefusedIffWriteWaits | contrib/storageimpl/storageimpl.go:496-503 | in every reachable state a lease is refused exactly while a write waits on its key |
| StoreReplies.AnswersTell | contrib/storageimpl/storageimpl.go:411-494 | in every run each answer is what the earlier answers say: Append succeeds exactly for an item not listed, Remove for a listed one, Put always; Get finds the last string put unless a list replaced it; GetList the items added and not taken away, in order, exactly if the key was written |
| StorageRuns.RunQueues | contrib/storageimpl/storageimpl.go:390-406 | in every run a key's ban count is the length of its queue, a non-empty queue implies a lease, no lease table is empty, and queued writes are for their own key |
| StorageRuns.TimerPerLease | contrib/storageimpl/storageimpl.go:504-533 | in every run each lease has exactly one live timer and each live timer its lease, and the loop's signal to a timer always finds it listening |
| StorageRuns.StoppedTimerStaysSilent | contrib/storageimpl/storageimpl.go:711-728 | a stopped timer never delivers an expiry again |
| StorageRuns.ExpiryEndsOwnLease | contrib/storageimpl/storageimpl.go:600-605 | the expiry a timer delivers ends the lease the timer was started for |
| StorageRuns.LeaseSafety | contrib/storageimpl/storageimpl.go:379-408 | in every run a key's value, string or list, does not change from the grant of a lease until its last lease is gone |
| StorageRuns.LeaseMayFollowWrite | contrib/storageimpl/storageimpl.go:191-204 | a run in which a client reads one value and is then granted a lease on another |
| StorageLeases.ValueFollowsAnswers | contrib/storageimpl/storageimpl.go:411-494 | in every run a key's later value is what the requests on it answered in between, in their order, make of the earlier one |
| StorageLeases.LeaseCoversReadIff | contrib/storageimpl/storageimpl.go:185-206 | in every run in which a client reads a value and is then granted a lease, the leased value is the one read exactly when the writes on the key answered in between leave it so; if it differs there was such a write |
| StorageLeases.LeaseHeldIff | contrib/storageimpl/storageimpl.go:496-605 | in every run a client holds a lease exactly if it was granted one while no write waited, and has neither given it back nor let its timer run out since |
| StorageLeases.EndingAnswered | contrib/storageimpl/storageimpl.go:527-666 | giving a lease back, held or not, and an expiry are answered at once with success, after the writes they let through |
| StorageDrain.DeferredWritesDrain | contrib/storageimpl/storageimpl.go:527-666 | in every run a waiting write is answered exactly when as many leases on its key have ended as were out when one looked; no new lease delays it |
| ConsistentHash.Libstore.GetServer | contrib/libstore/libstore-impl.go:145-173 | the client's two scans find a server with no other server closer clockwise of the key's hash |
| ConsistentHash.Storageserver.IsKeyInRange | contrib/storageimpl/storageimpl.go:737-767 | the server's scans accept a key exactly when the closest server clockwise has its own id |
| ConsistentHash.OneServerAccepts | contrib/storageimpl/storageimpl.go:737-767 | with distinct ids exactly one server accepts a key, the one a client picks, whatever the order of their lists |
| ConsistentHash.PlacedByHead | contrib/storageimpl/storageimpl.go:737-740 | two keys have the same place exactly if they agree before their first ':', when the hash does not collide on these parts |
| ConsistentHash.OneHeadOneOwner | contrib/storageimpl/storageimpl.go:737-767 | keys that agree before their first ':' are accepted by the same servers |
| ConsistentHash.AddServer | contrib/libstore/libstore-impl.go:145-173 | a new server takes exactly the keys closer to it, and no key moves between old servers |

## Left out

- Machine integers: ballots, counters, slots and ban counts are unbounded; node ids and hashes are 32-bit numbers and only compared.
- RPC, HTTP, JSON, goroutine start-up, sleeping and logging: delivery is an event of a run, and a JSON text is an arbitrary string.
- Liveness of Paxos and of the blocking RPC handlers: both depend on scheduling.
- Replicas that restart with lost state; node positions that are equal modulo the number of replicas.
- Participant recovery (contrib/airlineimpl/participant.go:130-213): storeHandler never dispatches TRANS_OLD or TRANS_OLD_RESPONSE. Connecting to the agency, also by the agency itself, is taken to succeed.
- Airlines that send a vote to a stopped agency: they wait for it in the program, and go on here.
- Libairline.MakeBooking: the airline of a flight and the address of an airline (looked up by libconn) are parameters, as nothing depends on them; the program takes GetAirlineFromFlightId for the first; a failing lookup ends the call before BookingFlights sends anything and is not modelled.
- StaleAnswersDisagree: for quorum sizes from 1 to the number of replicas; the program uses no other.
- AirlineParticipant.AirlineServer.Response: prepared logs are sequences here; the linked queue they are stored in is proved in Buf.
- StorageServer.AppHandler.Handle: lists and deferred queues in the server's maps are their contents; the linked hash list and queue that hold them are proved in HashList and Buf, and updating them in place inside the maps is not captured.
- Which clients asked to give back a lease answer, and when: any client may give back any lease at any time.
- Coherence of the client cache in contrib/libstore, and the hash function itself, which is a parameter.
- Flight queries (flightQueryBuf).
- ReplicatedAirline.ReplicasHoldOneLedger: JSON is read by any function. Reply channels are not modelled: a server is taken to find the channel it registered before it proposed the command. A replica panics on a command it cannot take apart and waits for good on TRANS_OLD; here such a command asks nothing of the ledger.
- Replicated airlines in the runs of bookings: there an airline is one participant.
- Server registration, the agency front end, the queries of libairline, libconn, the proxies and the unfinished copy of the storage server: plumbing that would add only easy members.
