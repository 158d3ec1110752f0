# The load harness, modelled and proved

This project models the parts of a load harness for IBM MQ that carry real
invariants, and proves what they promise.  Every module follows one part of the
program.  Code that changes state step by step is a class whose methods are proved
against a specification; concurrent protocols are machines whose steps interleave
in any order, and each class is shown to follow its machine with other threads at
work between any two of its steps.

| part | modules |
|---|---|
| pacing engine | `Pacing`, `CheckAnswers`, `Ramp`, `RampClock` |
| prime-finding workload | `NumberTheory`, `DummyWorkload` (Dummy.dfy) |
| worker and controller lifecycle | `WorkerMachine`, `WorkerThread`, `RampLimit`, `ControlThread`, `Shutdown` |
| forwarding | `QueueManager`, `Forwarding`, `PlainForwarding`, `Forwarder` |
| put/get pairs and their transaction options | `TransactionOptions`, `RoundTrip`, `PutGet` |
| reconnect rounds | `Reconnection`, `ReconnectTimer` |
| reply-queue cache | `ReplyNames`, `ReplyCache`, `Responder` |
| correlation IDs | `CorrelationId` |
| destination allocator | `Destinations` |
| command line and option lists | `CommandLine`, `Config` |
| statistics | `Statistics`, `Latency` |

## What is shown

* **Pacing.**  However late sleeps and iterations are, the iterations up to any
  check never exceed rate x (elapsed + half a millisecond), fewer than ceil(rate)
  are added before the next check, time is accounted for exactly across windows,
  and the "PACING ERROR" branch cannot be reached.  While iterations keep within
  their period and sleeps are exact, the rate is also met from below.  Each check
  sleeps to the nearest millisecond and comes again when the next millisecond is due.
  The ramp is linear up to the target rate.
* **Primes.**  The unbounded scan of the table always stops inside it, because there
  is always a prime between a prime and its square.  This is proved from scratch, by
  bounding a common multiple of 1..m from below (Leibniz's harmonic triangle) and
  from above (prime powers).  The table is exactly the first n primes, and the gap
  recorded is the first largest one.
* **Lifecycle.**  Sessions are opened and closed in pairs whatever fails; undisturbed
  runs end within a bound the settings give, with exactly the configured iterations
  if and only if there is no ramp or the settings rule out that a ramp meets the
  message limit, which they do exactly when no clock can make it do so; the runner count is exact in every interleaving; the wait of `shutdownWorkers` ends once each worker has taken at most
  24 further steps, and after it returns no iteration count changes any more.
* **Forwarding.**  Committed output and remaining input account for every message, for
  any number of forwarders, any interleaving and any failing call; with one forwarder
  the order is kept.  Forwarding is exactly-once if and only if transactions are on
  with a positive commit count and commit-between is off.  Without transactions, what
  is on neither queue is in a forwarder's hand or was missed by a failing call.
* **Put/get pairs.**  With any transaction options the program starts with, what a
  thread put is committed and available when it gets, and it gets back exactly that
  (or the reply to it).  What a failing call leaves on the queues is known exactly.
* **Reconnect rounds.**  The definition and the host in use agree in every
  interleaving.  With one reconnection per thread and round all threads of a round
  share one host; in general, all threads take part in a round if and only if none
  takes part twice.

## Where the code and its documentation differ

The code is followed.  These differences are stated as lemmas where they matter.

* "No limit" on the number of messages (`-mg 0`) is not unlimited: the 32-bit counter
  comes round, and a session ends after exactly 2^32 iterations
  (`WorkerMachine.IterationCount`).  A session whose limit is met while ramping goes
  once more round the counter.  With a ramp and a limit that is an int, every
  undisturbed run has the right number of iterations if and only if the ramp ends at
  its first check and that check comes before the limit; otherwise some timing gives
  too many (`RampLimit.CountRightIff`, `RampLimit.OrdinaryLimit`).
* When `run` returns, the OPENING bit is still on exactly if a shutdown interrupted an
  opening, and the CLOSING bit exactly if one interrupted a closing between sessions
  (`WorkerMachine.BitsLeftBehind`).
* If closing the last session fails, the exception escapes from `run` and from the
  thread's entry point (src/Thread.cpp:107-110), and ends the process.
* The closing summary of the prime workload reads inside its table exactly when two
  primes have been found (`DummyWorkload.Dummy.SummaryDefined`).
* A blank reply queue manager name is dropped when its queue is opened, so the cached
  queue is never found again and the next request opens another
  (`ReplyCache.OpenedOnceIffBlankOnce`).  If opening fails, the spare object stays in
  the cache and would be deleted twice (`Responder.Responder.CloseDestination`).
* An option value whose first word is UNSPECIFIED loses that word
  (`CommandLine.ReadsAsJoined`).
* The count of reconnections does not look at who reconnected: with any number of
  threads, one that reconnects again and again ends a round alone, while the others are
  still on the old host (`Reconnection.AloneEndsRound`).
* A thread's number is cut off its correlation ID's name part only in front, so two
  numbers of different lengths can give one ID if the class name ends in a repeating
  run of digits (`CorrelationId.SameIdIffHidden`).

## Model

| member | source | states |
|---|---|---|
| Pacing.RateCap | src/WorkerThread.cpp:445-515 | at every point of every run, iterations up to the last check are at most rate x (elapsed + 0.0005 s), and fewer than ceil(rate) have been added since |
| Pacing.ConservationOfTime | src/WorkerThread.cpp:449-513 | the time that checked iterations are worth plus the time given up at window ends is the window's start plus the position in it; position is carry plus windowCount/rate; the carry stays in [-4 s, 0.0005 s] |
| Pacing.NoPacingError | src/WorkerThread.cpp:424-513 | no run reaches the pacing error, no check is skipped, every interval is between 1 and ceil(rate) |
| Pacing.RateMet | src/WorkerThread.cpp:449-513 | while each iteration takes at most its period and sleeps are exact, the iterations so far are at every point at least rate x (elapsed - 0.0005 s), and at the last check at most rate x (elapsed + 0.0005 s) |
| Pacing.DecisionInRange | src/WorkerThread.cpp:464-492 | whatever the clock shows, the next interval is between 1 and ceil(rate) |
| Pacing.DecisionSleeps | src/WorkerThread.cpp:471-481 | after a check at most half a millisecond of sleep is still owed, and a positive target is slept away to within half a millisecond |
| Pacing.StepKeepsInv | src/WorkerThread.cpp:449-515 | one iteration, with or without a check, keeps the accounts of time and the intervals |
| Pacing.SteadyLoop.CheckPace | src/WorkerThread.cpp:450-514 | the code of a check decides, sleeps and carries as the specification says, for any clock that is not early, unless a shutdown interrupts its sleep |
| Pacing.SteadyLoop.Steady | src/WorkerThread.cpp:424-515 | every execution of the steady loop, also one that a shutdown ends in the middle of a sleep, is a run of the specification with at most one iteration after its last recorded state, so it never ends in a pacing error |
| Pacing.Clock.Sleep | src/Thread.cpp:154-165 | a sleep that is not interrupted by a shutdown takes at least the requested time |
| CheckAnswers.ChecksAnswer | src/WorkerThread.cpp:449-513 | every check of every run: how long it sleeps; after how many iterations it comes again, the least number after which one more millisecond of sleep is due, clipped at the least integer not below the rate and then at the rounded iterations of the minimum period, or that least integer if all the sleep so far does not make up for being late; and a window end moves the schedule only by what the clock moved beyond the sleep, unless the check is more than four seconds behind |
| CheckAnswers.FirstCheckIs | src/WorkerThread.cpp:424-442 | the loop starts a window when it is entered, and its first check comes after the least number of iterations that make up the minimum period |
| Ramp.LinearRamp | src/WorkerThread.cpp:373-388 | the iterations between two positions p and q are rate x (q^2 - p^2) / (2 x rampTime): the rate rises linearly to the target |
| Ramp.EndsAtHalf | src/WorkerThread.cpp:386-388 | an iteration is before the end of the ramp if and only if twice its number is below rate x rampTime |
| Ramp.FirstCheckAt | src/WorkerThread.cpp:376-380 | the first check is the first iteration whose position is not before the minimum period |
| Ramp.LeastIntervalIs | src/WorkerThread.cpp:413 | the shortest interval is the number of iterations the linear ramp has in the next minimum period, to the nearest integer |
| Ramp.NextIntervalIs | src/WorkerThread.cpp:401-414 | the interval to the next check is one more than the whole part of a quotient of clock readings and sleeps, or the shortest interval |
| Ramp.PositionTest | src/WorkerThread.cpp:386-388 | the ramp has reached its end exactly from iteration ceil(rampTime x rate / 2) on |
| Ramp.NoStall | src/WorkerThread.cpp:404-416 | from the stall position on, whatever the clock shows, the next check is at least one iteration away |
| Ramp.CanStall | src/WorkerThread.cpp:404-416 | before the stall position there is a clock reading that makes the interval zero, after which no check is made any more |
| Ramp.StallTest | src/WorkerThread.cpp:388-416 | the positions before the stall position are those of the iterations before a bound that the settings give |
| Ramp.CanJump | src/WorkerThread.cpp:404-416 | from half a second on, every interval that is at least one and at least the shortest allowed is given by some clock reading |
| Ramp.ShortSteps | src/WorkerThread.cpp:411-416 | before half a second, an interval that is at most one or the shortest allowed leads to a position before one second |
| RampClock.MetIffCanMeet | src/WorkerThread.cpp:376-417 | with the checks as the code makes them, some clock that never runs backwards makes a ramp meet the limit, if and only if the limit is not after the first check, or that check does not end the ramp and is before the stall position or less than 2^31 - 1 iterations lead from the end of the ramp to the limit |
| RampClock.ChecksCan | src/WorkerThread.cpp:386-417 | checks that lead a ramp to its limit show that an interval was zero or that the limit is within an int of the end of the ramp |
| RampClock.Climb | src/WorkerThread.cpp:386-417 | from every check on a ramp that cannot stall, short steps and jumps lead to the limit if it is within an int of the end of the ramp, with a clock reading for each check |
| RampClock.LeastFits | src/WorkerThread.cpp:413-414 | if the first check comes within a hundred million iterations, every shortest interval is an int |
| RampClock.LaterJump | src/WorkerThread.cpp:411-416 | the clock reading that gives a longer interval at a later position is later |
| NumberTheory.PrimeBelowSquare | src/Dummy.cpp:75-87 | there is always a prime between a prime and its square |
| NumberTheory.PrimeAfterOddPrime | src/Dummy.cpp:75-87 | for an odd prime p a larger prime below its square exists |
| NumberTheory.CommonMultipleIsLarge | src/Dummy.cpp:75-87 | a nonzero common multiple of 1..2n+1 is at least (2n+1) x 2^n, the bound behind the scan's safety |
| NumberTheory.PrimePowersBound | src/Dummy.cpp:75-87 | the product of the largest powers up to m of the primes up to 2k+1 is at most m^(k+1) |
| NumberTheory.PrimePowersCommonMultiple | src/Dummy.cpp:75-87 | with no prime in between, that product would be a common multiple of 1..m |
| DummyWorkload.ScanStopsInTable | src/Dummy.cpp:78-80 | the last prime found exceeds the square root of every candidate tried next |
| DummyWorkload.ScanDecidesPrimality | src/Dummy.cpp:79-87 | a candidate that no table entry up to its root divides is the next prime |
| DummyWorkload.NthPrimeComplete | src/Dummy.cpp:66-97 | a number is prime if and only if it appears in the sequence of primes |
| DummyWorkload.Dummy.OneIteration | src/Dummy.cpp:66-97 | one call appends the next prime and keeps the first largest gap and its index |
| DummyWorkload.Dummy.TrialDivision | src/Dummy.cpp:78-86 | the scan reads only inside the table and finds a divisor exactly when the candidate is not the next prime |
| DummyWorkload.Dummy.FindNext | src/Dummy.cpp:75-87 | the search for the next prime ends and skips none |
| DummyWorkload.Dummy.Find | src/Dummy.cpp:66-97 | after n calls the table is exactly the first n primes in order |
| DummyWorkload.Dummy.SummaryDefined | src/Dummy.cpp:51-57 | the closing summary reads inside the table exactly when two primes have been found |
| DummyWorkload.Dummy.Summary | src/Dummy.cpp:51-57 | the summary shows the last prime found and the first two consecutive primes with the largest gap |
| WorkerMachine.SessionDiscipline | src/WorkerThread.cpp:161-262 | on every path that returns, is shut down or throws a runtime error, closing is attempted exactly once for each session opened, and iterations count only while a session is open |
| WorkerMachine.StepKeepsInv | src/WorkerThread.cpp:187-262 | every step keeps the OPEN and RUNNING bits, the counting and the pairing of sessions in agreement with the program point |
| WorkerMachine.IterationCount | src/WorkerThread.cpp:206-304 | with no shutdown and no failure, exactly the configured sessions, each with exactly the configured iterations but for one round of the counter more whenever a ramp met the limit |
| RampLimit.CountRightIff | src/WorkerThread.cpp:369-449 | every undisturbed run has exactly messages x sessions iterations, if and only if there is no ramp, or it cannot meet the limit: the first check is before the limit, and it either ends the ramp or can neither be the last check nor be followed by checks that reach the limit |
| RampLimit.EverySessionOverruns | src/WorkerThread.cpp:386-449 | if the ramp can meet the limit, some undisturbed run has a round of the counter too many in every session, as each session ramps |
| RampLimit.OrdinaryLimit | src/WorkerThread.cpp:369-417 | for a limit from 1 to 2^31 - 1, the ramp cannot meet it exactly if the ramp ends at its first check and that comes before the limit |
| RampLimit.StepKeepsCheckAhead | src/WorkerThread.cpp:386-417 | if the ramp cannot meet the limit, at every step the next check of a ramp comes before the limit |
| RampLimit.StepKeepsEndless | src/WorkerThread.cpp:386-417 | if it can, there is a timing under which no check ends the ramp before the limit |
| WorkerMachine.QuietStepDescends | src/WorkerThread.cpp:187-262 | every undisturbed step leaves fewer sessions, iterations or steps |
| WorkerMachine.QuietRunsEnd | src/WorkerThread.cpp:187-262 | every undisturbed run reaches the end of run, within a number of steps that the settings give |
| WorkerMachine.BitsLeftBehind | src/WorkerThread.cpp:161-248 | when run returns, OPENING (CLOSING) is on if and only if a shutdown interrupted an opening (a closing between sessions), and ERROR if and only if a call failed; STARTED and ENDED are on, RUNNING and OPEN off |
| WorkerMachine.EscapesFromLastClosing | src/WorkerThread.cpp:245-246 | an exception escapes from the thread if and only if the closing of its last session is cut short by one |
| WorkerMachine.SignalledWindsDown | src/WorkerThread.cpp:187-288 | each step of a signalled worker, whatever it results in, brings the end of its thread closer |
| WorkerMachine.LimitMet | src/WorkerThread.cpp:284 | the 32-bit comparison is met at the end of a session, or one round of the counter later |
| WorkerThread.RunnerCount.IncRunners | src/ControlThread.cpp:636-644 | one more worker is counted |
| WorkerThread.RunnerCount.DecRunners | src/ControlThread.cpp:651-665 | one fewer worker is counted, or an error if there is none |
| WorkerThread.Thread.OpenSession | src/WorkerThread.cpp:161-167 | opening as code follows the machine, whatever it results in |
| WorkerThread.Thread.CloseSession | src/WorkerThread.cpp:169-175 | closing as code follows the machine, whatever it results in |
| WorkerThread.Thread.DoOneIteration | src/WorkerThread.cpp:264-288 | an iteration as code follows the machine and comes closer to the limit |
| WorkerThread.Thread.Pace | src/WorkerThread.cpp:297-519 | the three loops end at the end of the session or in an exception |
| WorkerThread.Thread.RampUp | src/WorkerThread.cpp:386-418 | the ramp loop as code follows the machine: it ends at the end of the ramp, at the limit, or in an exception |
| WorkerThread.Thread.CheckRamp | src/WorkerThread.cpp:387-416 | a check of the ramp as code keeps the next check and the end of the ramp in agreement with the machine |
| WorkerThread.Thread.RunSessions | src/WorkerThread.cpp:198-225 | the session loop ends, counted exactly once if its first session opened |
| WorkerThread.Thread.Run | src/WorkerThread.cpp:187-262 | every execution is a run of the machine and ends; the count is restored unless an exception escapes from the last closing |
| ControlThread.RunnersAreCounted | src/ControlThread.cpp:636-665 | in every interleaving the count is the number of workers past incRunners and before decRunners, which never underflows; RUNNING is set one step earlier and cleared one step earlier |
| ControlThread.ReturnsWhenNoneRuns | src/ControlThread.cpp:674-696 | when shutdownWorkers returns, every worker is signalled and none was counted at the last read |
| ControlThread.TotalsAreFinal | src/ControlThread.cpp:457-479 | once shutdownWorkers has returned, no iteration count changes any more |
| ControlThread.NextKeepsInv | src/ControlThread.cpp:573-696 | every move of any thread keeps the count, the signals and the workers' invariants |
| ControlThread.WaitEnds | src/ControlThread.cpp:674-696 | once every worker is signalled, the count is zero and the wait ends as soon as each started worker has ended or taken 24 steps, unless an exception escapes from a thread |
| Shutdown.Controller.StartWorkers | src/ControlThread.cpp:582-588 | as code: starts all workers one after another, with those already started at work in between |
| Shutdown.Controller.LockAndWait | src/ControlThread.cpp:682-684 | a wait in which every started worker takes a step leaves fewer steps to be taken |
| Shutdown.Controller.ShutdownWorkers | src/ControlThread.cpp:674-696 | as code, the wait ends: no worker is counted and none will iterate again, unless an exception has escaped from a thread |
| QueueManager.DropAll | src/MQIOther.cpp:190-194 | committing gets removes exactly the messages the connection held |
| QueueManager.ReleaseFree | src/MQIOther.cpp:222-226 | backing out gets makes exactly the messages the connection held available again |
| QueueManager.ReleaseAll | src/MQIOther.cpp:222-226 | backing out gets loses no message and no place |
| QueueManager.DropWith | src/MQIOther.cpp:222-226 | backing out puts removes a connection's messages and no others |
| QueueManager.GotWith | src/MQIObjects.cpp:350-420 | a get in a unit of work moves one message into the connection's hold |
| Forwarding.NothingLostOrDuplicated | src/Forwarder.cpp:138-154 | for any number of forwarders, any interleaving and any failures, committed replies and uncommitted gets are the original messages, and a closed connection holds nothing |
| Forwarding.AtRestNothingHeld | src/MQIWorkerThread.cpp:129-144 | when all sessions are closed, each message is on exactly one queue, once |
| Forwarding.ForwardedInOrder | src/Forwarder.cpp:138-154 | with one forwarder, committed output followed by the remaining input is the original sequence |
| Forwarding.BatchesDelivered | src/MQIWorkerThread.cpp:146-150 | n undisturbed iterations deliver every complete batch of the commit count and nothing more |
| Forwarding.ExactlyOnceIffSafe | src/Forwarder.cpp:91-151 | forwarding is exactly-once in all runs if and only if transactions are on, the commit count is positive and commit-between is off |
| Forwarding.MessageLost | src/Forwarder.cpp:147-151 | otherwise a put that fails at the end of a batch loses its message |
| Forwarding.RepliesCarryText | src/Forwarder.cpp:151 | a reply has its message's text if messages are copied, and the fixed text if not |
| PlainForwarding.PresentOrMissed | src/Forwarder.cpp:138-154 | without transactions, for any number of forwarders, interleaving and failures: every message is on one of the queues, free for all, or in a forwarder's hand, but for those whose put did not take effect or whose get did and raised |
| PlainForwarding.EachIsPut | src/Forwarder.cpp:138-154 | without a commit count, n undisturbed iterations have put a reply to each of the first n messages, in order and with its text, and left the others; free at once without transactions, held with them |
| PlainForwarding.FreeAtTheEnd | src/MQIWorkerThread.cpp:129-144 | when that session is over, its replies are free for all |
| Forwarding.TurnKeeps | src/MQIWorkerThread.cpp:129-150 | one call of a forwarder, whatever comes of it, conserves messages and leaves other connections' messages alone |
| Forwarding.LineTurn | src/Forwarder.cpp:138-154 | a forwarder alone refines a line of forwarded, got, put and untouched messages |
| Forwarder.Forwarder.MsgOneIteration | src/Forwarder.cpp:138-154 | get, optional commit and put as code follow the machine, with other forwarders in between |
| Forwarder.Forwarder.OneIteration | src/MQIWorkerThread.cpp:146-150 | the iteration is counted exactly when its calls and its commit, if one is due, have worked |
| Forwarder.Forwarder.CloseSession | src/MQIWorkerThread.cpp:129-144 | roll back and disconnect as code follow the machine; a failing roll back abandons the connection |
| Forwarder.Forwarder.Session | src/WorkerThread.cpp:206-225 | a session ended by limit, failure or shutdown conserves messages if the options are safe, has the given number of iterations unless it is ended early, and counts them in 32 bits |
| TransactionOptions.MQIOpts.Configure | src/MQIOpts.cpp:308-508 | which option combinations throw, which mark the configuration invalid, and when puts and gets of the others are transactional |
| TransactionOptions.MQIOpts.ConfigurePair | src/PutGet.cpp:47-48 | the program starts a put/get pair exactly when txp and txg are known, do not contradict tx, and the commit count is at most one |
| RoundTrip.GetsWhatItPut | src/PutGet.cpp:114-132 | in every run a get is issued with the put committed and available, returns what was put or the reply to it, and nothing is pending when the next iteration begins |
| RoundTrip.AcceptedIsSound | src/MQIOpts.cpp:382-412 | with any options the program starts with, no put is uncommitted in any run when its thread gets |
| RoundTrip.TurnOf | src/PutGet.cpp:114-132 | a thread's call does the same to its own messages however many others there are, and nothing to theirs |
| RoundTrip.TurnKeepsLocal | src/Requester.cpp:161-180 | what carries a thread's ID at each point of an iteration, after any outcome of any call |
| RoundTrip.AnsweredOf | src/Requester.cpp:161-180 | an answer replaces exactly its own request |
| RoundTrip.PutPlaced | src/Requester.cpp:161-168 | a put goes to the requests for a Requester and to the queue it gets from for a PutGet, cannot be got until it is committed, and can be afterwards |
| RoundTrip.WhatFailureLeaves | src/MQIWorkerThread.cpp:129-144 | for each call of an iteration and each way it can fail, what is left of the thread's messages once its session is closed: rolled back, available, or gone |
| PutGet.PairThread.Get | src/PutGet.cpp:126-129 | the get as code waits for, and returns, the message put in this iteration |
| PutGet.PairThread.MsgOneIteration | src/PutGet.cpp:114-132 | put, commit and get as code follow the machine, with other threads in between |
| PutGet.PairThread.OneIteration | src/MQIWorkerThread.cpp:146-150 | an iteration that works leaves nothing uncommitted |
| PutGet.PairThread.Session | src/MQIWorkerThread.cpp:129-150 | a session that opens and closes well has had all its iterations and leaves none of its messages behind; one that failed never closes well |
| Reconnection.RoundsAlternate | src/ReconnectTimer.cpp:139-188 | in every interleaving the definition names the host in use, or the other one while a round is open; the host changes once for every n reconnections; the times shown are extremes that were reached, and are reset between rounds |
| Reconnection.FinishKeepsInv | src/ReconnectTimer.cpp:172-187 | a round ends only while it is open, however often each thread has taken part |
| Reconnection.OneHostPerRound | src/RequesterReconnectTimer.cpp:186-238 | if each thread reconnects once per round, all threads of a round are on one host and between rounds on the host in use |
| Reconnection.RoundEnds | src/RequesterReconnectTimer.cpp:186-238 | with that discipline, when a round ends every thread has completed it |
| Reconnection.EveryoneIffNobodyTwice | src/ReconnectTimer.cpp:172-187 | without it, every thread reconnects between two round ends if and only if none reconnects more than once |
| Reconnection.AloneEndsRound | src/ReconnectTimer.cpp:172-187 | for any number of threads, one of them can end a round alone, with all others on the old host |
| ReconnectTimer.Statics.Gate | src/ReconnectTimer.cpp:144-159 | the gate as code: the first thread through resets the definition to the other host |
| ReconnectTimer.Statics.Finish | src/ReconnectTimer.cpp:166-187 | the end as code: the extremes, the count and, for the last thread, the toggle |
| ReconnectTimer.Reconnector.Reconnect | src/ReconnectTimer.cpp:139-190 | a reconnection as code, with attempts repeated and others in between, follows the protocol |
| ReconnectTimer.Reconnector.MsgOneIteration | src/ReconnectTimer.cpp:192-238 | the calls of an iteration are put, commit, get, commit (commits with transactions only), made in this order up to the first that fails, and then one reconnection, except that a failing put1 and a get that finds nothing after a shutdown was signalled throw instead; only a put that throws can leave anything uncommitted |
| ReplyNames.SameStringIffEqual | src/Responder.cpp:78-82 | strncmp over a field finds no difference exactly when the strings before the nulls are equal |
| ReplyNames.EqualMeansSameKey | src/Responder.cpp:78-82 | two queues are equal exactly when both names are |
| ReplyNames.EqualMeansSameHash | src/Responder.cpp:49-82 | equal queues have equal hashes, whatever follows the nulls of their names |
| ReplyNames.Hash | src/Responder.cpp:49-67 | the hash as code depends only on the two strings |
| ReplyNames.HashRunsTogether | src/Responder.cpp:49-67 | names that run together alike collide |
| ReplyNames.HashGrows | src/Responder.cpp:49-67 | the hash starts from 5381, runs through the queue manager name and then the name, and multiplies by 33 and mixes in each character as a signed one |
| ReplyNames.UnpaddedLength | src/MQI.hpp:285-292 | the length without padding blanks |
| ReplyCache.AgreesWithMap | src/Responder.cpp:227-252 | for names that opening leaves alone, a request is served from the cache exactly when the pair was requested before, by a queue with exactly those names |
| ReplyCache.RepeatedServedIff | src/Responder.cpp:227-252 | a pair requested before is served from the cache if and only if put1 is in use or its queue manager name is empty or not blank |
| ReplyCache.ServedIffRequested | src/MQIObjects.cpp:251-268 | with put1, or without blank queue manager names, exactly the pairs requested before are served from the cache |
| ReplyCache.OpenedOnceIffBlankOnce | src/Responder.cpp:237-248 | each pair is opened at most once per session if and only if no blank queue manager name comes up twice without put1 |
| ReplyCache.BlankOpenedTwice | src/MQIObjects.cpp:263-268 | two requests with a blank queue manager name open the queue twice |
| Responder.MQIQueue.SetNames | src/MQIObjects.cpp:235-240 | names are set only before opening |
| Responder.MQIQueue.Open | src/MQIObjects.cpp:251-280 | opening for output: with put1 nothing happens, otherwise a blank queue manager name is dropped whether or not opening then works, and an open object is refused and stays as it is |
| Responder.Responder.GetReplyQueue | src/Responder.cpp:227-252 | the cache becomes what one more request makes it, the queue returned has the requested names, and the spare is never a member unless opening failed, when it is the newest member with those names and not open |
| Responder.Responder.CloseDestination | src/Responder.cpp:208-225 | every object is deleted, and exactly once unless the spare was a member |
| CorrelationId.CorrelId | src/MQIWorkerThread.cpp:205-266 | an ID has exactly 24 characters |
| CorrelationId.IdFormat | src/MQIWorkerThread.cpp:227-261 | the last eight characters of the process part against a hyphen in the ninth place, the last fifteen of the name behind it, and blanks around both |
| CorrelationId.PrintedValue | src/MQIWorkerThread.cpp:234-241 | numbers are printed in digits of their base, in lower case and without leading zeros, that stand for them |
| CorrelationId.GenerateCorrelID | src/MQIWorkerThread.cpp:205-266 | the buffer is filled in place with the ID, with or without a process ID |
| CorrelationId.SameIdIffHidden | src/MQIWorkerThread.cpp:244-260 | threads of one class share an ID if and only if their numbers are equal, or the longer is the shorter after the end of the class name and what is kept of that name repeats |
| CorrelationId.ThreadsDiffer | src/WorkerThread.cpp:56-60 | within a class whose last six characters are not all digits, different 32-bit thread numbers give different IDs |
| CorrelationId.ProcessesDiffer | src/MQIWorkerThread.cpp:251-260 | process IDs without spaces that end differently never share an ID |
| CorrelationId.PrintedInjective | src/WorkerThread.cpp:56-60 | different numbers are printed differently |
| Destinations.DestinationFactory.Ini | src/cphDestinationFactory.c:111-167 | which options are accepted, the completed range as asked, that there are several destinations if any option is positive, and that the first number handed out is inside the range |
| Destinations.RangeAsAsked | src/cphDestinationFactory.c:111-153 | of accepted options: with all three, the range is db..dx and the first number is dn; otherwise a positive db is the base and the first number, a positive dx is the maximum, a positive dn is the number of destinations (unless dx is negative), the base is 1 when nothing else fixes it, and there is no maximum when nothing does |
| Destinations.AcceptedIff | src/cphDestinationFactory.c:111-160 | options are accepted if and only if db is not negative, db does not exceed dx, dn leaves no negative base, and dn is within db..dx when all are given |
| Destinations.DestinationFactory.GetNextDestination | src/cphDestinationFactory.c:301-318 | the number handed out, and the next one |
| Destinations.DestinationFactory.GenerateDestinationIndex | src/cphDestinationFactory.c:216-221 | a single destination has no number |
| Destinations.DestinationFactory.Allocate | src/cphDestinationFactory.c:301-318 | the numbers given to workers have the closed form of the k-th index |
| Destinations.KthIndex | src/cphDestinationFactory.c:301-318 | with a maximum, the k-th index is base + ((start - base + k) mod size), always within the range |
| Destinations.Fair | src/cphDestinationFactory.c:301-318 | whole cycles give every destination the same count, and no two counts ever differ by more than one |
| Destinations.Increasing | src/cphDestinationFactory.c:308-312 | with no maximum the numbers increase for ever |
| CommandLine.RoundTrip | src/cphConfig.c:121-183 | parsing printed options gives the same keys and recorded values in order; tokens may be anything that does not begin with a hyphen, and negative numbers |
| CommandLine.ReadsAsJoined | src/cphConfig.c:154-168 | a value reads as its words joined by blanks exactly when the first is not UNSPECIFIED |
| CommandLine.PrintedIsFound | src/cphConfig.c:259-287 | what was printed is found again by its first option, before any default; a name not printed is found as its first default, or is unknown if there is none |
| CommandLine.LookupByPlace | src/cphConfig.c:259-287 | the first option with the name decides, else the first default with it: a value that fits is returned as it is, or empty if it is UNSPECIFIED, and one that does not fit stops the program; a name is missing if and only if neither list has it |
| CommandLine.StrayValuesIgnored | src/cphConfig.c:121-183 | values before the first option or after a lone hyphen are ignored |
| Config.NameValList.Add | src/cphNameVal.c:49-70 | walking the linked list appends at its end |
| Config.NameValList.Get | src/cphNameVal.c:89-116 | walking the linked list finds the first node with the name |
| Config.Config.ReadCommandLine | src/cphConfig.c:121-183 | the loop over the arguments builds exactly the parsed list |
| Config.Config.GetString | src/cphConfig.c:259-287 | the lookup as code; a name found nowhere marks the configuration invalid |
| Statistics.WorkIsConserved | src/ControlThread.cpp:123-191 | interval totals add up to the last sample, modulo 2^32, as workers are only added |
| Statistics.ReportsAddUp | src/ControlThread.cpp:123-191 | in general they add up to the last sample and the counts of workers no longer sampled |
| Statistics.StatsThread.Interval | src/ControlThread.cpp:160-191 | swapping the vectors and differencing them as code reports the interval's total |
| Statistics.StatsThread.Difference | src/ControlThread.cpp:179-191 | the two loops add up the interval in 32-bit arithmetic |
| Statistics.StatsThread.GetThreadStats | src/ControlThread.cpp:535-546 | a sample replaces what the vector held |
| Latency.RunningMean | src/WorkerThread.cpp:269-283 | the recorded mean lies between the extremes, never exceeds the true mean and falls short by at most (k - 1)/2 |
| Latency.BoundIsReached | src/WorkerThread.cpp:276-281 | that bound is reached for every k |
| Latency.LatencyStats.Record | src/WorkerThread.cpp:269-283 | recording as code |
| Latency.LatencyStats.GetLatencyStats | src/WorkerThread.cpp:561-569 | reading reports and resets all but the mean |

## Left out

- Shutdown.Controller.ShutdownWorkers: assumes that no started worker is starved for ever, as each takes a step during every wait; what the process does after an exception has escaped from a thread is not modelled.
- WorkerMachine.SessionDiscipline: covers the two kinds of exception that `run` handles, shutdown and runtime errors (to which MQ errors belong); a `logic_error`, which the MQI objects throw when misused, is not modelled.
- Pacing.RateCap: does not bound the rate of the ramp phase, whose check interval has no floor of one; the ramp's checks and its end are in `Ramp`, `WorkerMachine` and `RampLimit`.
- RampClock.MetIffCanMeet: for at most a hundred million iterations before the first check (50 or 100 ms after the start); beyond, the shortest intervals overflow an int.  Positions are exact square roots.
- RampLimit.CountRightIff: the machine lets each check of a ramp choose any interval of an int (zero only before the stall position); `RampClock.MetIffCanMeet` shows that actual clocks reach the limit in exactly the same cases.
- Reconnection.OneHostPerRound: assumes one reconnection per thread and round, which the code does not enforce; `Reconnection.EveryoneIffNobodyTwice` and `Reconnection.AloneEndsRound` say what holds otherwise.
- Latency.RunningMean: assumes that latencies are not negative and at most LONG_MAX, as differences of a monotone clock are.
- Floating-point rounding, `(int)` casts and overflow of signed integers (rates, sleeps, destination numbers): real and unbounded arithmetic is used.  Wrap-around is modelled for the iteration and session counters of `WorkerMachine` and `WorkerThread`, for the commit schedule and for the statistics; the counters of `DummyWorkload` and `Pacing` are unbounded.
- A negative rate, which nothing in the code refuses: rates are positive, and zero means unpaced.
- Threads, locks and condition variables: each step of a machine is atomic.  The gate of a reconnect is locked in the code; its end is not, and is one step here.
- The time limit and the pauses in starting workers one by one (src/ControlThread.cpp:573-629), yielding, and the messages shown while waiting.
- What a failed worker leaves open: the forwarding machine lets a forwarder open another session after a failure, which `run` does not; the runs of the code are among those of the model.
- MQ itself beyond getting, putting, committing, backing out and disconnecting.  Neither syncpoint option on a call means outside the unit of work, as on distributed platforms.
- A forwarder whose input and output are given the same queue; message descriptors, truncation and growing buffers.
- Put/get pairs without correlation IDs or with selectors; a Requester's reply is matched by thread rather than by message ID, and the responder answers in one step.
- Failing to open destinations after a reconnection, and the contents of a channel definition table: with a table any host may be chosen.
- The ordered-set variant of the reply cache (src/Responder.cpp:84-103), whose comparison is not an ordering; bucket counts of the hashed one; names that MQOPEN itself changes.
- The buffers of the command-line parser (80, 256 and 2048 characters) and its validity checks; a value too long for the reader's buffer stops the program and is reported as such.
- The random base of correlation IDs when no process ID is given, and IDs made from an overriding class name.
- The mean of means that the stats thread keeps over all intervals, elapsed times and printed rates.
- Publishing, subscribing, sending and receiving workloads, connection options, message building, logging, tracing and property files: easy members or I/O.
