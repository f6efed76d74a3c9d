# A model of the authentication inspector

The repository is an authentication service in two processes. The *inspector* decides requests: it opens sealed
session cookies, consults mirrored session lists and answers allow, deny or redirect. The *form* signs users in,
renews and revokes their sessions. This project models the parts of both that carry state and proves what
they keep, over every input and every run.

| module | models |
|---|---|
| `Bytes`, `Net`, `Seqs`, `Spacing`, `Clock` | little-endian words, IP prefixes and their masks bit by bit, facts about sequences and spaced moments, nanoseconds and seconds |
| `Wafs` | the binary object format of packages and snapshots, decoder and reference encoder |
| `Composition`, `Records` | the members of one list: the running XOR hash, the counts by prefix length, the address lookup; what any run of records comes to, read off the records |
| `Mirror` | one mirrored list: frames, inline packages, catch-up reads, snapshots, hash checks |
| `Replica`, `Arrival` | the mirror against its keeper, an abstract log of packages: what a ready set is, and what each frame makes of it |
| `Queue`, `PoolRuns`, `PoolSafety`, `PoolAdmits`, `PoolAnswers`, `PoolDrains`, `PoolCloses` | the worker pool: the slice filtered in place, all threads as a step machine, what every run keeps, what a call of Submit gets, which answer an entry gets, why it comes to rest, what closing leaves behind |
| `Roster`, `SignIn`, `GuessRate`, `Bursts`, `Submit`, `Outcomes` | counters and locks of sign-in attempts, parallel submits interleaving at every roster call, how many checks they buy at all and over time, the schedules that show the bounds exact, the loops of one submit, what the outcome of its check does |
| `Otp`, `Totp` | one-time codes, the window search, burning a used code |
| `Renewal`, `Revocation` | the life of a session through renewals; revocation through two mirrors and a sequencer |
| `Asks`, `Query`, `Decide`, `Admission`, `Pages` | asks of earlier inspectors, query escaping, the whole decision on one request, who is let in told from the request alone, and where the others are sent |
| `Sink` | the bounded, drop-oldest audit buffer |
| `Deploy`, `Polling`, `Stale`, `Overlaps`, `OneDeployment` | the directory swap that puts a new configuration in place, with rollback; the reloads that run beside it, what those under way can still do, runs in which they overlap deployments, and which deployments they can spoil |

Where the source changes fields in place there is a class (`Composition.Members`, `Mirror.Set`, `Queue.Pool`,
`Roster.Memory`, `Renewal.Token`, `Revocation.Form`, `Asks.Asked`, `Sink.Buffer`, `Deploy.Machine`) whose methods
are proved equal to a function on values; the theorems are about those functions and about runs of them.
Concurrency is a machine of atomic steps: a pool step is what a thread does between taking and releasing the lock,
a sign-in step is one roster call, and any interleaving is a run. The bus, Redis, the clock, the operating system and the
cryptography are parameters: a statement quantified over all of them covers every loss, delay and failure.

`dafny verify dfyconfig.toml` checks everything.

## What the proofs brought to light

Places where the program does not do what one would expect of it, with the condition:

* `Queue`: `Close` may return while a call of `Submit` still has to answer expired entries it took off the queue
  (`PoolSafety.CloseCanReturnEarly`). Seen from the caller: that can happen exactly when, at the time of `Close`, some
  `Submit` owes answers already or is still to sweep a queue that is not empty (`PoolCloses.CloseForgetsExactly`).
* `SignIn`: the limit of checks for every lock that passes holds only as long as submits are prompt. With `delay` from
  count to lock read, one limit of lock reads for each `h` holds exactly when `delay` is less than the lock, `h` at
  most the lock and `h + delay` at most the window and one tick (`Bursts.RateOfReads`): a late read costs the window,
  not the lock, until it is a whole lock late. Dated by the check, which comes later still, it is exactly `h + delay`
  at most the lock and at most the window and one tick (`Bursts.RateOfChecks`). Otherwise
  twice the limit can come through within less than `h` (`Bursts.AfterWindow`, `Bursts.AfterLockUnread`, `Bursts.AfterLockRead`).
* `Mirror`: the package inside a frame is applied without a look at the frame's hash, a package read from Redis is not;
  the two paths differ exactly where that hash is not the keeper's (`Replica.InlineIsCatchUp`).
* `Wafs`: a length byte beyond the address is not refused (`Wafs.AnyLengthUnpacks`); loading such a prefix panics
  (`Composition.PanicExactly`), and a prefix with host bits set is never found (`Composition.FaithfulExactlyWhenMasked`).
* `Otp`: ten-digit codes, which the configuration allows, agree with section 5.3 of RFC 4226 only for values below
  1410065408 (`Otp.CodeIsHotp`); a period under a second divides by zero (`Otp.CounterDividesByZero`).
* `Totp`: a step's code is accepted once exactly as long as it is burned within one period of its check
  (`Totp.OnceExactly`).
* `Renewal`: with `renew_after` below a second a renewed session may be sent to renew at once (`Renewal.RenewLoop`);
  with a remaining term below a second a renewed token may never open (`Renewal.RenewedOpens`).
* `Revocation`: a removal that the sequencer has taken does not hold by itself: renewals in flight, additions on the
  wire, the grace window and a form whose mirror lags behind bring the session back, and nothing else does
  (`Revocation.ReturnsExactly`).
* `Decide`: observe mode records `redirect` where enforce mode denies, exactly when the form is inline, the ticket does
  not seal or an external source has no sign-in page (`Decide.DryRun`).
* `Deploy`: a staging directory that could not be cleared is not noticed, and its leftovers go live
  (`Deploy.SuccessMeans`).
* `Polling`: both processes also reload the live directory by a timer and on a signal, without regard to a deployment
  under way. Reloads that overlap no swap harm nothing (`Polling.ReloadsApartHarmNothing`). One that does can spoil a
  single deployment from rest exactly when its tree goes live, is not read, has another fingerprint, and that tree,
  its sources with the old profiles, or the old profiles alone read differently (`OneDeployment.SpoiledExactly`,
  `Overlaps.OverlapMixes`). Nothing need fail: a reload that read the tree of one deployment and is overtaken by the
  next stores the first under the fingerprint of the second (`Overlaps.Overtaken`). In general, once no deployment
  moves, the store can still go wrong exactly when a reload under way has read something that comes to another snapshot
  than its directory (`Stale.SpoilsExactly`), goes wrong for good exactly when it will store that under the
  directory's own fingerprint (`Stale.SpoilsForGoodExactly`), and is put right by reloads exactly under the condition
  of `Stale.MendsExactly`.
* The repository's README.md (line 100) says the address lock is shared by all profiles; the code prefixes every
  scope with the source's name (cmd/http/login.go:382), and the model follows the code.

## Model

| member | source | states |
|---|---|---|
| Bytes.UnLEOfLE | internal/livelist/wafs.go:65-84 | a little-endian field reads back as the number written, for every width |
| Bytes.LEOfUnLE | internal/livelist/wafs.go:65-84 | a field of bytes is the encoding of the number it reads as |
| Wafs.RoundTrip | internal/livelist/wafs.go:65-178 | decoding undoes encoding for every well-formed object, both set types, with and without reasons, whatever follows |
| Wafs.Truncated | internal/livelist/wafs.go:65-178 | every strict prefix of an encoded object is refused, and as truncated |
| Wafs.RefusedAtOnce | internal/livelist/wafs.go:65-160 | what is refused before a record is read, each with its error: too short, other magic, other version, and with records an unknown type |
| Wafs.Reencode | internal/livelist/wafs.go:65-178 | encoding what was decoded gives back a prefix of the input: nothing is invented, the count is exact |
| Wafs.AnyLengthUnpacks | internal/livelist/wafs.go:108-130 | the length byte of a prefix is not checked: above 32 an IPv4 prefix unpacks into one without a length |
| Wafs.UnpackRec | internal/livelist/wafs.go:92-175 | one turn of the cursor loop reads exactly the record that starts at the cursor, within bounds |
| Wafs.UnpackRecs | internal/livelist/wafs.go:92-175 | the loop reads exactly as many records as the header says, or stops at the first bad one |
| Wafs.Unpack | internal/livelist/wafs.go:65-178 | the cursor decoder computes the recursive decoding that the theorems are about, errors included |
| Net.MaskBits | internal/livelist/livelist.go:173-192 | masking keeps exactly the leading bits of an address |
| Net.MaskedIsCover | internal/livelist/livelist.go:173-192 | an address masked to a stored length is that prefix exactly when the prefix is masked and covers the address |
| Net.UnmapMeans | internal/livelist/livelist.go:173-178 | exactly the addresses ::ffff:a.b.c.d become a.b.c.d, every other stays |
| Composition.XorAssociates | internal/livelist/livelist.go:134-171 | XOR on numbers is associative, so members can be taken out of the running hash in any order |
| Composition.ApplyKeepsHashed | internal/livelist/livelist.go:134-171 | adding, removing, re-adding and removing what is not there all keep the hash the XOR over the members |
| Composition.HashIsOfMembers | internal/livelist/livelist.go:134-171 | after any records in any order the running hash is the XOR of the hashes of the current members |
| Composition.HistoryForgotten | internal/livelist/livelist.go:134-171 | two histories that end with the same members end with the same hash |
| Composition.PanicExactly | internal/livelist/livelist.go:134-171 | applying records panics exactly when one adds a prefix without a length |
| Composition.MaterialTells | internal/livelist/wafs.go:53-63 | no two prefixes are hashed from the same bytes |
| Composition.Recount | internal/livelist/livelist.go:140-158 | a prefix that comes or goes changes the count of its family and length by one, and no other |
| Composition.Members.ApplyRec | internal/livelist/livelist.go:134-171 | in place: maps, hash and the count by length all move together to the state of `Apply`, which `Records` reads off the records |
| Composition.Members.ContainsAddr | internal/livelist/livelist.go:173-198 | the lookup that skips lengths with a zero count finds an address exactly when a live masked stored prefix covers it |
| Composition.FastIsNaive | internal/livelist/livelist.go:173-198 | for masked stored prefixes that is any live stored prefix covering the address |
| Composition.FaithfulExactlyWhenMasked | internal/livelist/livelist.go:173-198 | a stored prefix is looked up faithfully for all addresses and times exactly when it is masked |
| Records.ValuesAre | internal/livelist/livelist.go:134-171 | after any records, whatever came before: a value is a member exactly if its last record adds it, with that record's expiry and reason; one without a record is as it was |
| Records.NetsAre | internal/livelist/livelist.go:134-171 | the same for prefixes and their expiry |
| Records.AnswersFromTheLog | internal/livelist/livelist.go:303-375 | over every run a ready set answers just what the keeper's log says up to its position: a value is listed exactly if the last record on it adds it and is alive, an address exactly if that holds for a masked prefix covering it |
| Mirror.FrameCost | internal/livelist/livelist.go:438-605 | by any call path one frame causes at most one snapshot request, and none after a bad snapshot unless it names another epoch |
| Mirror.SilentAfterBadSnapshot | internal/livelist/livelist.go:607-698 | after a snapshot whose hash does not match, no sequence of frames of that epoch causes a request |
| Mirror.CatchUpCost | internal/livelist/livelist.go:502-553 | catching up, which ends because the distance shrinks with every read, asks for at most one snapshot |
| Mirror.Set.TakeFrame | internal/livelist/livelist.go:438-500 | the handler that changes the set in place does what the frame function says, in every branch; `Arrival` says what that is |
| Mirror.Set.Chase | internal/livelist/livelist.go:502-553 | the catch-up loop does, and terminates |
| Mirror.Set.TakePackage | internal/livelist/livelist.go:555-583 | a package is applied only onto its predecessor: the callers see to what the function does not check |
| Mirror.Set.CheckHash | internal/livelist/livelist.go:585-605 | a wrong hash is answered by at most one snapshot |
| Mirror.Set.TakeSnapshot | internal/livelist/livelist.go:607-698 | the set is replaced as a whole or not at all |
| Mirror.Set.InstallObject | internal/livelist/livelist.go:669-698 | a snapshot is built aside and swapped in with its epoch, position, key and hash |
| Mirror.Set.Contains | internal/livelist/livelist.go:303-336 | a value is contained exactly when it is listed unexpired, literally or as an address under a live prefix |
| Mirror.Set.Lookup | internal/livelist/livelist.go:338-358 | a lookup gives the live entry of the text and nothing else |
| Mirror.Set.ContainsAddr | internal/livelist/livelist.go:360-375 | an address is contained exactly when the set is ready and a live prefix covers it |
| Replica.ReplicaCorrect | internal/livelist/livelist.go:438-698 | over every run, with frames and packages lost, repeated, reordered or refused, a ready set is the keeper's state at its position, readers only ever see such states, and nothing panics |
| Replica.FrameFaithful | internal/livelist/livelist.go:438-500 | any single frame keeps that |
| Replica.StateAt | internal/livelist/livelist.go:134-171 | the keeper's states: each is hashed and indexed, so a sound log never panics |
| Replica.CatchUpArrives | internal/livelist/livelist.go:502-553 | as long as Redis holds the packages, one frame brings the set to its position: without a snapshot where the frame's hash is the keeper's or absent, else with exactly one on arrival |
| Arrival.RunAsks | internal/livelist/livelist.go:450-474 | at the end of any run: an unready set asks once on every frame, a ready one on every frame of another epoch, even if a bad snapshot had silenced it; with the keeper's snapshot of (e, q) it is ready and the keeper's state at (e, q) |
| Arrival.FrameArrives | internal/livelist/livelist.go:476-499 | a frame ahead of the set brings it to its position, by the package inside it or by those in Redis, with one request on arrival exactly for a foreign hash |
| Arrival.FrameIsIdle | internal/livelist/livelist.go:438-484 | another version, a resend, an epoch that is no number, a position passed, or the set's own under its own hash change nothing |
| Arrival.OtherHashAsks | internal/livelist/livelist.go:480-484 | a tick or diff at the set's position with another hash makes it ask once |
| Arrival.CatchUpStops | internal/livelist/livelist.go:502-583 | where a package is missing or does not follow, the set takes all before it and asks once; where a read fails it stays and asks for nothing |
| Arrival.InstallCrashesExactly | internal/livelist/livelist.go:669-698 | a snapshot stops the goroutine exactly if it adds a prefix without a length |
| Replica.InlineIsCatchUp | internal/livelist/livelist.go:476-499 | the package inside a frame and the same package read from Redis lead to the same state exactly where the frame's hash is the keeper's or absent; elsewhere the second path asks for one snapshot more |
| Replica.HashDecides | internal/livelist/livelist.go:585-605 | checking a hash leaves a faithful set alone exactly when it is the keeper's or absent, and asks for one snapshot otherwise |
| Queue.LateExactly | internal/queue/queue.go:306-320 | a task is late from the moment on at which less than the least budget is left before its deadline less the reserve |
| Queue.Partition | internal/queue/queue.go:195-220 | filtering expired entries loses and doubles nothing |
| Queue.SidesAreRight | internal/queue/queue.go:195-220 | what is kept has time left, what is taken out has not |
| Queue.LiveIsSubsequence | internal/queue/queue.go:195-220 | what is kept stays in order |
| Queue.Pool.Enqueue | internal/queue/queue.go:165-169 | appending in place, or into a larger array, adds one entry at the end |
| Queue.Pool.TakeExpired | internal/queue/queue.go:195-220 | the filter that overwrites the slice it reads keeps exactly the live entries in order and returns exactly the rest |
| Queue.Pool.Pop | internal/queue/queue.go:287-292 | the head leaves and the rest stays |
| PoolRuns.StepConserves | internal/queue/queue.go:86-334 | whatever a thread does, every accepted entry is answered, queued or in one thread's hands, and every submitted one accepted, turned away or still with its submitter |
| PoolSafety.SignalReachesWorker | internal/queue/queue.go:165-169 | when a signal is sent no submitter can be asleep, so it is never spent on one |
| PoolSafety.StepWakeups | internal/queue/queue.go:120-304 | no step loses a wakeup: a sleeping submitter means a full queue, a sleeping worker as many woken ones as queued entries |
| PoolSafety.SomeWorkerIsUp | internal/queue/queue.go:258-304 | in every reachable state with work queued or a submitter asleep, some worker is awake |
| PoolSafety.ExactlyOnce | internal/queue/queue.go:86-163 | nothing is ever answered twice, and when all is quiet everything was answered once and the counters add up to what was submitted |
| PoolSafety.FirstInFirstOut | internal/queue/queue.go:195-304 | what workers got and what is still queued follows the order of acceptance, and the queue never outgrows its depth |
| PoolSafety.AnsweredWhenCloseReturns | internal/queue/queue.go:233-278 | when Close returns the queue is empty, and every accepted entry was answered exactly when no Submit is still answering expired ones |
| PoolSafety.CloseCanReturnEarly | internal/queue/queue.go:94-240 | a run in which Close returns and an accepted entry is unanswered |
| PoolCloses.CloseForgetsExactly | internal/queue/queue.go:86-118 | in a closed pool some continuation without arrivals leaves an accepted entry unanswered if and only if some Submit owes answers, or can still sweep while something is queued |
| PoolCloses.CloseForgetsNothing | internal/queue/queue.go:233-240 | if at the time of Close no Submit could still sweep or owes answers, every accepted entry is answered when it returns |
| PoolCloses.CloseChangesNothing | internal/queue/queue.go:233-240 | Close itself makes nobody owe, so the condition can be looked at before the call |
| PoolDrains.BusyStep | internal/queue/queue.go:86-334 | whichever busy thread is scheduled, at whatever time, whoever a signal wakes, there is less left to do |
| PoolDrains.BusyRunsEnd | internal/queue/queue.go:86-334 | no schedule of busy threads is longer than what the state counts as left |
| PoolDrains.AlwaysDrains | internal/queue/queue.go:86-334 | from every reachable state, without arrivals, timers or Close, the threads bring everything to an answer at any pace of the clock: no deadlock |
| PoolAnswers.AnsweredByItsTime | internal/queue/queue.go:195-334 | whichever thread answers a queued entry, in any run, refuses it as expired exactly when it is out of time at that moment |
| PoolAdmits.AdmitsExactly | internal/queue/queue.go:94-118 | in any state, a submit past its sweep is accepted, shed, put to sleep, sent to answer expired entries, or refused as expired, each exactly under its condition on pool, queue, mode and time |
| PoolAdmits.WaitsExactly | internal/queue/queue.go:120-163 | the same for a waiting submit that is up again: its timer counts only while there is no room |
| PoolAdmits.ArrivesExactly | internal/queue/queue.go:86-92 | a submit expires on arrival exactly when it is late |
| PoolAdmits.TurnedAwayExactly | internal/queue/queue.go:322-334 | shed is answered and counted as shed, expired as expired |
| PoolAdmits.AloneExactly | internal/queue/queue.go:86-163 | a whole call nobody interleaves with: expired entries answered first, then an open pool takes it exactly if the live entries leave room, else sheds it or has it wait, as configured; a closed one refuses it |
| PoolAdmits.NeverExpiredForRoom | internal/queue/queue.go:86-163 | over every run, who is refused as expired without having been queued was late, met a closed pool, or waited until its timer fired; in drop mode a full queue is never the reason |
| PoolAnswers.ModesExclude | internal/queue/queue.go:105-118 | in wait mode nobody is ever shed, in drop mode no submitter ever waits |
| Roster.Memory.TryBurn | internal/roster/roster.go:144-158 | an id is fresh exactly when it was not burned or its time is over, and is burned from now on |
| Roster.Memory.CountFailure | internal/roster/roster.go:160-176 | a counter goes on within its window and starts anew after it |
| Roster.Memory.Forget | internal/roster/roster.go:178-186 | counter and lock of a scope are gone, others untouched |
| Roster.Memory.SetLock | internal/roster/roster.go:188-196 | a lock is set and the counter it was spent on dropped |
| Roster.Memory.LockLeft | internal/roster/roster.go:198-215 | the time left of a lock; a lock that ran out is dropped |
| SignIn.GuessesPerLife | cmd/http/login.go:102-137 | over every interleaving of submits one life of a scope's counter admits at most the configured number of password checks |
| SignIn.ParallelSubmitsBuyNothing | cmd/http/login.go:222-281 | as long as nothing pardons the scope, all submits together get no more checks than the limit, however many run in parallel |
| SignIn.StandingLockIsMet | cmd/http/login.go:251-256 | a submit that counts anew beside a standing lock reads it and is over |
| SignIn.OverForGood | cmd/http/login.go:104-112 | whoever is over stays over and is never checked |
| SignIn.RunKept | cmd/http/login.go:102-281 | the invariant of all runs: tickets of one life differ, whoever is counted above the limit is over, spent counters have their lock standing |
| SignIn.WithoutLockout | cmd/http/login.go:114-126 | a configuration without attempts counts and locks nothing and refuses nobody: whoever finds a verification slot gets its check |
| GuessRate.LivesApart | cmd/http/login.go:222-281 | of two checked submits counted in different lives, the later read the lock, and was checked, more than a window after the earlier was counted, or a lock after it; in the second case a lock after the earlier one's reading, unless that was itself a lock late |
| Bursts.RateOfReads | cmd/http/login.go:222-281 | if submits take at most `delay` from count to lock read, every scope neither cleared nor failed by the roster gets in any span at most `limit * (1 + span / h)` lock reads (of submits that are then checked), if and only if `delay` is less than the lock, `h` at most the lock and `h + delay` at most the window and one tick |
| Bursts.RateOfChecks | cmd/http/login.go:102-137 | dated by the password check, the same bound holds if and only if `h + delay` is at most the lock and at most the window and one tick, where `delay` is the longest time from count to check |
| Bursts.AfterWindow | cmd/http/login.go:233-256 | for every limit: a whole limit of submits counted in one window may read and be checked late, right before another whole limit counted in the next window |
| Bursts.AfterLockUnread | cmd/http/login.go:233-256 | for every limit: a whole limit of submits that read only after a lock has run out gets past it at the moment at which a whole limit counted after it does |
| Bursts.AfterLockRead | cmd/http/login.go:102-137 | for every limit: a lock set between reading and check stops no check, so a whole limit may be checked as late as another one counted after that lock |
| Submit.Reserve | cmd/http/login.go:222-259 | the counting loop: one count and one lock or lock test a scope, in order; nothing without a limit |
| Submit.LockWhatIsSpent | cmd/http/login.go:261-271 | after a rejection exactly the scopes at their limit are locked |
| Submit.ResetAll | cmd/http/login.go:163-167 | after a sign-in counters and locks of exactly its scopes are gone |
| Submit.LongestLock | cmd/http/login.go:306-324 | the loop gives the longest time left on any scope's lock, and nothing when none stands |
| Submit.ReserveIsTheRun | cmd/http/login.go:222-259 | a submit nobody interleaves with ends where that loop ends, so the interleaved machine is the loop cut into roster calls |
| Submit.RejectIsTheRun | cmd/http/login.go:261-271 | the same for the locks after a rejection |
| Submit.AcceptIsTheRun | cmd/http/login.go:163-167 | the same for the reset after a sign-in |
| Outcomes.RejectedLocksTheSpent | cmd/http/login.go:124-138 | from the check on: a rejected password locks exactly the scopes whose counts are spent, drops their counters, and leaves all else as it was |
| Outcomes.AcceptedClearsAll | cmd/http/login.go:147-169 | an accepted one clears counter and lock of all its scopes and of no other |
| Outcomes.UnavailableLeavesAll | cmd/http/login.go:124-138 | one that could not be checked leaves the roster as it is, the attempt counted |
| Outcomes.FailedCallsArePassedOver | cmd/http/login.go:231-281 | a roster call that fails is passed over and decides nothing |
| Outcomes.CheckedExactly | cmd/http/login.go:102-126 | who is through with its scopes is checked exactly if it is not over and finds a slot |
| Outcomes.ForgivenForAReason | cmd/http/login.go:124-169 | over every run counter and lock of a scope are set aside only after a right password given with it, or where the roster failed a call for it |
| Outcomes.AmnestyForAReason | cmd/http/login.go:222-281 | and an amnesty comes only from that, from a lock that ran out, or from a whole quiet window |
| Otp.At | internal/otp/otp.go:50-81 | the rendering loops give the last digits of the value modulo a wrapping power of ten |
| Otp.CodeIsHotp | internal/otp/otp.go:62-81 | up to nine digits that is the code of section 5.3 of RFC 4226; with ten exactly for values below the wrapped modulus |
| Otp.SameCode | internal/otp/otp.go:62-81 | two values show one code exactly when they agree modulo the power of ten |
| Totp.Search | internal/provider/code.go:95-106 | the loop over the skew matches exactly when some step in the window shows the code |
| Totp.Submit | cmd/http/login.go:324-345 | checked and then burned: accepted exactly when the code matched and was not burned |
| Totp.MatchingSpan | internal/provider/code.go:95-106 | the moments at which one step can match span less than `2*skew+1` steps |
| Totp.AtMostOnce | cmd/http/login.go:324-345 | whatever else is burned, one step's code is accepted at most once per subject when burned in time (section 5.2 of RFC 6238) |
| Totp.OnceExactly | cmd/http/login.go:332-335 | that holds in every run exactly when the delay from check to burn is within the slack of the window, one period for periods of whole seconds |
| Totp.KeysAreApart | cmd/http/login.go:335 | burning touches no other subject and no other code |
| Renewal.Token.Renew | cmd/http/server.go:219-234 | the token changed in place: refused with the source's reason and unchanged, or reissued with its birth fixed |
| Renewal.SignedInExactly | cmd/http/server.go:279-289 | a token just signed in is born and issued now and runs out with its term or the whole life, to the second |
| Renewal.SpentExactly | cmd/http/server.go:247-277 | each reason not to renew exactly under its condition: the whole life lived, counted from birth or, without one, from issue; the user gone, disabled, or with a new password |
| Renewal.OneMoreRenewal | cmd/http/server.go:208-245 | one more renewal of a chain is granted exactly if those before were, the token opens, the session is listed and not spent |
| Renewal.ChainIsBounded | cmd/http/server.go:208-289 | over any chain of renewals identity and birth stay, and the expiry is the earlier of the renewal's term and the end of the whole life, to the second |
| Renewal.WholeLifeEnds | cmd/http/server.go:247-257 | from birth plus `max_ttl` on no token of the session opens or renews, whatever route it was renewed by |
| Renewal.AccountLossEnds | cmd/http/server.go:259-277 | after a local user is gone, disabled or has a new password every token runs out within one ttl |
| Renewal.RenewLoop | internal/token/token.go:219-221 | a session just renewed is sent to renew again exactly when `renew_after` does not reach the next second, never from one second on |
| Renewal.RenewedOpens | cmd/http/server.go:279-289 | a renewed token opens at all exactly when its term reaches the next second |
| Revocation.FormSteps | cmd/http/server.go:208-245 | a sign-in gives out a new token; a renewal with a token not honoured does nothing, with a spent one removes the session, else gives out a token of the same session; a revocation removes it |
| Revocation.WireSteps | cmd/http/server.go:383-407 | entries are sequenced at the log's end or lost, and mirrors move |
| Revocation.ListedExactly | internal/livelist/livelist.go:338-358 | a session is listed exactly if the last entry on it adds it for longer than now |
| Revocation.RevocationIsFinal | cmd/http/server.go:208-245 | once a removal has come to rest, no later step of any run issues, renews or lists the session again, and no inspector past the removal accepts it |
| Revocation.ReturnsExactly | cmd/http/server.go:383-407 | a session can come back in some run exactly when an addition is on the wire, a renewal in flight, or a token still renewable |
| Revocation.ClosedForGood | cmd/http/server.go:40-56 | otherwise no run in which the form's mirror moves forward adds it again |
| Revocation.QuietIsClosed | cmd/http/server.go:40-56 | a removal passed by the form's mirror, with all tokens out of the grace window and nothing under way, is such a state |
| Revocation.SignedInIsHonoured | cmd/http/login.go:147-169 | a session signed in and sequenced is honoured past the grace window until the earlier of its expiry and the list's term |
| Revocation.RevokedIsUnlisted | cmd/http/server.go:399-407 | a revocation once sequenced takes the session off every mirror that took it in |
| Revocation.Form.RenewRequest | cmd/http/server.go:208-245 | a renewal request answers and publishes exactly what its outcome says: a listing, a removal or nothing |
| Revocation.Form.Remember | cmd/http/server.go:383-397 | an issued session is listed until the earlier of its expiry and the list's term |
| Revocation.Form.CloseGate | cmd/http/server.go:306-314 | signing out removes the session exactly when its token still opens |
| Asks.Asked.Take | internal/decide/decide.go:529-561 | one ask: applied exactly when some rule lets its sender have it, recorded either way |
| Asks.Asked.TakeAll | internal/decide/decide.go:513-527 | the asks of all verdicts of the request phase, in order |
| Asks.AskIs | internal/decide/decide.go:513-561 | skip and reauth are set exactly when somebody asked and a rule lets them |
| Asks.AllRecorded | internal/decide/decide.go:513-561 | all asks of the request phase are recorded in order, as applied exactly where a rule is for that sender, takes the verb, and, if it names axes or codes, the ask's |
| Asks.ValidatedMeans | internal/config/profile.go:497-545 | a rule is accepted exactly when it names its senders, asks only for what the gate can do, on axes where that occurs, and lets only a named sender skip |
| Asks.SkipIsNamed | internal/config/profile.go:535-542 | under a validated profile skip is set exactly by a rule naming that very sender |
| Decide.ObserveIsDryRun | internal/decide/decide.go:104-275 | for every request observe mode gives the same error, the same permission or a permission recording the refusal, with the same event and findings; the recorded verdict is right exactly outside the degraded redirects |
| Decide.ObserveNeverBlocks | internal/decide/decide.go:104-260 | in observe mode the only answer but allow is an unavailable list |
| Decide.RefusalsExactly | internal/decide/decide.go:288-342 | no session, an expired one, a revoked one and an unavailable list are each reported exactly when they are the case |
| Decide.EventsExactly | internal/decide/decide.go:563-581 | the event tells exactly who asked: permitted, in the wrong group, nobody, or with a session not honoured, and for the sign-in form in terms of the cookie and the list |
| Decide.RevokedIsRefused | internal/decide/decide.go:325-341 | after a revocation has come to rest no inspector whose mirror passed it honours a token of that session, in any run |
| Decide.AllowsExactly | internal/decide/decide.go:104-260 | in enforce mode a request passes exactly on the gate's own pages, with an opened, permitted session owing nothing, or by a named sender's skip |
| Admission.OpensExactly | internal/decide/decide.go:277-452 | under each of the three providers a session is honoured exactly when it is genuine: sealed for this source and client and listed or in grace; carried by a trusted bearer token; or known to the application's list, with just what that says |
| Admission.JwtRefusals | internal/decide/decide.go:357-421 | each refusal of a bearer token with its finding exactly under its condition: malformed, forged, over, not yet valid, of another issuer, for another audience |
| Admission.AppRefusals | internal/decide/decide.go:424-452 | each refusal of an application's cookie exactly under its condition |
| Admission.FormRefusals | internal/decide/decide.go:288-342 | the refusals of the sign-in form `Decide.RefusalsExactly` leaves out, and the findings of all |
| Admission.AnswersExactly | internal/decide/decide.go:104-260 | in enforce mode each answer exactly under its condition on the request: welcome, wrong group, new sign-in due, renewal due, list unavailable, skipped, or the refusal's code |
| Admission.VerdictsExactly | internal/decide/decide.go:184-275 | and how it is given: allowed, an error, redirected with the status for it, or refused with the response for it and the findings |
| Admission.LetsInExactly | internal/decide/decide.go:104-260 | who is let in, without reference to how a session is opened |
| Admission.EventsTell | internal/decide/decide.go:563-581 | the event under every provider, from the request alone |
| Admission.OwnPathsAre | internal/config/profile.go:649-673 | exactly the learning paths, the sign-in page and what lies below it belong to the gate |
| Pages.AnswersCarry | internal/decide/decide.go:184-275 | in enforce mode every answer carries exactly the address with its return path, the ticket, the form inside and the notes that go with its code |
| Pages.ReturnPathExactly | internal/decide/decide.go:794-822 | the address asked for is led back to exactly if it is on this host, printable, without a backslash and at most 1024 long |
| Pages.LocalPathExactly | cmd/http/server.go:566-583 | so does the form take a path it is handed |
| Pages.PagesExactly | internal/decide/decide.go:758-784 | which requests are pages |
| Pages.DueExactly | internal/decide/decide.go:583-590 | a new sign-in is due when the whole seconds allowed have passed on the nanosecond clock |
| Pages.UncheckedPass | internal/decide/decide.go:104-160 | what is off and the gate's own pages pass, with nothing opened and nobody asked |
| Decide.SkipsOnlyWeaken | internal/decide/decide.go:184-260 | more asks without reauth never turn an allow into another verdict |
| Decide.ReauthsOnlyTighten | internal/decide/decide.go:184-260 | more asks without skip never turn another verdict into an allow |
| Decide.RedirectsLeadOut | internal/decide/decide.go:678-756 | every redirect leads to a page the gate lets everyone through to, so none loops |
| Decide.TicketIsKept | internal/decide/decide.go:700-736 | the ticket set along with a redirect is one the form goes on with, and leads back where the address says once its query is read |
| Query.EscapeReadsBack | internal/decide/decide.go:719-722 | an escaped return path reads back as it was, and holds nothing that separates parameters |
| Sink.Buffer.Add | internal/audit/sink.go:79-92 | one more item pending; over the limit the oldest is dropped and counted; the size is that of what is pending |
| Sink.Buffer.Round | internal/audit/sink.go:140-152 | one round takes the oldest 256 and publishes them |
| Sink.Buffer.Flush | internal/audit/sink.go:130-154 | a flush nothing arrives during ends, with the buffer empty, everything handed on in order and, for every subject, just its pending items sent |
| Sink.Buffer.Publish | internal/audit/sink.go:156-168 | one message for every subject, in order of first appearance |
| Sink.GroupBySubject | internal/audit/sink.go:170-183 | the map and the order list hold every subject's items in order |
| Sink.Measure | internal/audit/sink.go:207-215 | the loop adds up what the incremental size stands for |
| Sink.RoundsHandOn | internal/audit/sink.go:130-154 | a round hands on the oldest items, at most 256, and leaves the rest |
| Sink.Conserved | internal/audit/sink.go:65-154 | over any run what arrived is what was handed on or dropped, in that order, and then what is pending, never more than 50000 |
| Sink.CountsAddUp | internal/audit/sink.go:65-154 | arrivals are handed on, dropped or pending |
| Sink.DropsOnlyWhenFull | internal/audit/sink.go:84-89 | a step drops exactly the oldest item and only when the buffer is full |
| Sink.GroupingIsStable | internal/audit/sink.go:170-183 | grouping is a stable partition |
| Sink.SubjectOrder | internal/audit/sink.go:130-183 | over any run each subject's items go out in the order they arrived, once, but for the dropped |
| Sink.MessagesAreWellFormed | internal/audit/sink.go:140-195 | every message holds one to 256 items, all of its subject |
| Deploy.TreeMeans | internal/desired/desired.go:220-245 | the written tree has a file exactly where the manifest lists one, with the text of the last of that name |
| Deploy.Machine.Write | internal/desired/desired.go:220-245 | in any order of entries a write that succeeds lays the manifest's tree over what was there |
| Deploy.Machine.Apply | internal/desired/desired.go:162-218 | for every pattern of failures, directories and store end as the specification says |
| Deploy.Machine.ReloadFromLive | internal/config/profiles.go:144-162 | the snapshot and the directory change only after a successful read |
| Deploy.ErrorsExactly | internal/desired/desired.go:162-218 | each error of Apply exactly under its condition |
| Deploy.LiveExactly | internal/desired/desired.go:162-218 | after a success a file is live exactly if the manifest lists it or staging still held it, the manifest's text first |
| Deploy.AsideExactly | internal/desired/desired.go:162-218 | what every outcome leaves in the staging and the parking place |
| Deploy.SuccessMeans | internal/desired/desired.go:162-218 | when Apply succeeds the new tree is live and read; it is the manifest exactly when nothing else was left over in staging |
| Deploy.FailureRestoresTree | internal/desired/desired.go:193-213 | on an error the live tree is as before exactly when the steps back worked, or the residue happens to be the old tree |
| Deploy.FailureRestoresStore | internal/desired/desired.go:203-213 | Apply leaves the store as before exactly unless a restored tree read back says something else than the store did |
| Deploy.HandledExactly | internal/desired/desired.go:325-357 | a manifest already reported as applied is passed over, any other applied and reported as applied or failed |
| Deploy.AllOrNothing | internal/desired/desired.go:325-357 | through any sequence of manifests with failing reads, writes and renames, the deployments alone leave live, loaded and reported the last manifest put in place |
| Polling.MovesAreApplied | internal/desired/desired.go:162-218 | cut into the moves the rest of the process can see, Apply comes to what it comes to as a whole |
| Polling.ReloadsApartHarmNothing | internal/config/profiles.go:164-182 | in every run in which no reload overlaps a swap the reloads of any number of pollers change nothing, so the same holds with them |
| Stale.SpoilsExactly | internal/config/profiles.go:164-318 | when no deployment moves, some continuation of the reloads leaves a store that was right without what its directory says, if and only if a reload under way has read something that, read on, says something else |
| Stale.MendsExactly | internal/config/profiles.go:164-182 | a store that is wrong can become right without a deployment if and only if a reload can begin, or one under way stores what is right, or stores under another fingerprint; otherwise it stays wrong |
| Stale.SpoilsForGoodExactly | internal/config/profiles.go:164-318 | it can become wrong for good if and only if a reload under way will store something wrong under the fingerprint of what is right |
| Stale.StaysMixed | internal/config/profiles.go:164-172 | with nobody reading, a store that has its tree's fingerprint stays as it is, whatever it holds |
| Overlaps.OverlapMixes | internal/config/profiles.go:164-182 | beside a deployment that goes all the way back a reload can store the new tree, its sources with the old profiles, or the old profiles alone; Apply has reported the failure, the tree is the old one, and where the store says something else no reload repairs it |
| Overlaps.Overtaken | internal/config/profiles.go:164-318 | without any fault: of two deployments that succeed the second is live and reported and the first is in the store, and stays there, exactly unless both read the same |
| Overlaps.MixingHappens | internal/config/profiles.go:217-318 | a concrete case: the new source beside the old profile, for good |
| Overlaps.OvertakingHappens | internal/config/profiles.go:303-318 | a concrete case of a deployment overtaken, for good |
| OneDeployment.SpoiledExactly | internal/desired/desired.go:162-218 | from rest, a deployment whose way back works can leave the store wrong, for some timing of any number of reloads, if and only if its tree has another fingerprint, goes live and is not read, and that tree, its sources with the old profiles, or the old profiles alone say something else than the store; and then it can for good. A single deployment that succeeds is never spoiled |

## Small facts

Beside the table stand facts that follow closely from one definition and that other proofs, or a reader, use.

* Decisions: `Decide.GateMeans` (the gate redirects unless the form is inline or out of reach), `Decide.HeldExactly`
  (which sessions of the form are honoured), `Decide.ReturnPathIsTaken` (return paths are local, printable and short),
  `Decide.ReauthSettles` (a session just signed in anew is not due again if `reauth_after` is a second or more),
  `Admission.OnlyGenuineEnter` (no token but a trusted one opens the gate), `Pages.FormKeepsExactly` (which tickets the
  form goes on with), `Pages.GroupsExactly`, `Pages.WholeExactly`, `Pages.SecondsExactly` and `Pages.UnknownProfiles`.
* Characters: `Query.PlainExactly` (what stays unescaped) and `Query.ValuesExactly` (digits are read in either case).
* Times and lists: `Composition.AliveUntil`, `Revocation.ListingExactly`, `Revocation.ClockShows`.
* The mirror: `Arrival.HashLetsOn` (which hash lets a set go on) and `Arrival.PackageCrashes`.
* Directories: `Deploy.RenameExactly` and `Stale.SaysExactly` (which directory the store reads).
* `Revocation.RequestIsTwoSteps` (a renewal nobody interleaves with is a check and an issue).

## Left out

- The bus, Redis, HTTP serving, cookies, HTML pages, heartbeats and logging: their outcomes are inputs of the models, and fields that only the log reads are not there.
- Sealing, SipHash, HMAC, bcrypt and random ids: parameters; a sealed cookie opens to what was sealed, fresh ids are fresh.
- LDAP, NTLM, geo lookups, list writes of event rules and the `static` code provider: foreign calls.
- Environment and YAML loading and most field validators; reading a configuration tree is a function from the tree to a snapshot or an error (`parse` in `Deploy`).
- Parsing a manifest and its hash: the hash is a field of the manifest.
- IPv6 zones, text forms of addresses and the /64 cut of attempt scopes: addresses are bytes, scopes are values (cmd/http/login.go:374-389).
- What trimming and Unicode case folding make of a group's name is a parameter; bytes of a request are characters.
- The headers handed upstream and the reported session of a permission follow from the session in the result.
- The pre-check of locks before an attempt is counted (cmd/http/login.go:62-72) appears as a roster read at any time (`Peek`); the single-use nonce as a burn of another key.
- Redis as a roster: the model is of the memory roster, each call one atomic step.
- The fill percentage of the queue, the reserve handed to a handler and handler run times; updating a counter and calling the handler are one step.
- Crash atomicity of a deployment, and a position that never falls back across snapshots: the program does not promise them. Expiry times and reasons are not covered by the hash.
- 64-bit hashes are unbounded naturals under XOR; the count of dropped audit items does not wrap.
- Base64 text that does not decode is an input of the mirror (`NotBase64`), and readers see what the program publishes when it releases the lock.
- How long a waiting submitter waits: its timer may fire at any time.
- Moments before 1970 for one-time codes.
- Tokens of other providers are given parsed, their signature checked or not; an application's session is a list entry.
- Deploy.AllOrNothing: it is about deployments alone, because reloads beside them break it; `Polling.ReloadsApartHarmNothing`, `OneDeployment.SpoiledExactly` and `Stale.SpoilsExactly` say when.
- Deploy.FailureRestoresStore: what a reload in between stores is not part of it, for the same reason.
- A reload reads its sources in one step and its profiles in another, where the program reads file by file: that is enough to mix, and makes no difference where the tree stands still.
- Revocation.RevocationIsFinal: it needs that snapshots do not set the form's mirror back before the removal, because the program lets a snapshot overwrite the position.
- Replica.ReplicaCorrect: it needs that bytes which decode at all are the keeper's own, because packages and snapshots carry no signature, and that the keeper's prefixes have a length, because the program panics without.
