# hackriff: verified models

Dafny models of the parts of the repository where a mistake would be silent, with proofs of what they
promise. `dfyconfig.toml` names the project's files.

| files | what they model |
|---|---|
| `BitWords`, `AisCrc`, `AisLine`, `AisFields`, `AisDecoder` | the AIS line decoder: NRZI, flags, bit stuffing, octets, CRC-16/X-25, fields |
| `WorkClaims`, `WorkDeflakes`, `WorkRunner`, `WorkJournal`, `WorkPasses`, `WorkSafety`, `WorkLoss`, `WorkBounds`, `WorkFates`, `WorkWitness`, `WorkLimits`, `WorkRaises`, `WorkOutcomes`, `WorkQueue`, `WorkResumes`, `WorkStarts`, `WorkOrder` | the work runner: claims through runs, reviews, fixes, holds and limits under caps, and ticks that raise |
| `WatchdogClocks`, `WatchdogSafety`, `WatchdogRoles`, `WatchdogOwners` | the watchdog: clocks carried between ticks, kills, relaunches, attribution |
| `TaskGraph` | the task map: dependency closure and contraction of done tickets |
| `ChunkedFilter`, `FmReceiver` | filters run chunk by chunk, and the FM receiver |
| `SyncWords`, `SyncWindows`, `SyncMerge`, `SyncSearch` | the DMR and FLEX sync searches |
| `Framing`, `StreamConsumers` | the length-prefixed record stream and its consumers |
| `Worklog`, `Burndown` | the incremental transcript parser and the commit-keyed history |
| `Wrappers`, `Division`, `Chains` | optional values; quotients and remainders; sequences of states |

How to read them. Code that works by changing things step by step is a class or a method with loops,
proved equal to a function of its inputs or its old state; the properties are lemmas about that function.
Time, process tables, worker results, gate lines and everything else from outside are inputs, so a lemma
about a run holds for every sequence of them. The AIS sender is not in the repository; it is written here
as a specification from Annex 2 of ITU-R M.1371-5 and section 4.3 of ISO/IEC 13239.

The main results:

- `AisDecoder.MessageDelivered`, `AisDecoder.HeaderDelivered`, `AisDecoder.BurstRejected`: every message
  sent arrives with its type and sender, and no damaged frame with a burst of up to 16 bits or an odd number
  of errors is accepted.
- `WorkBounds.CountersAreLaunches`, `WorkBounds.AttemptsExact`, `WorkBounds.DeflakesExact`,
  `WorkFates.RequestFate`: over every run, any tick of which may raise, the launches are those on the
  counters and those lost with their tick. The attempt budgets are kept exactly when no attempt after a lost
  one breaks them, each deflake request is answered once exactly when no lost tick had answered one, and none
  is dropped but as stale evidence. No launch goes through a hold or, hand-named remote tickets
  aside, exceeds its host's bounds (`WorkBounds.HoldsRespected`, `WorkBounds.CapsHeld`), and no branch is in the merge queue unreviewed that
  asked for a review, or on a run that failed (`WorkQueue.QueuedEarned`).
- `WatchdogSafety.ZombieKillExact`, `WatchdogSafety.OrphanSignalExact`, `WatchdogRoles.RelaunchExact`: exactly
  when the watchdog signals a process and relaunches a role.
- `TaskGraph.ContractionKeepsReachability`, `TaskGraph.DrawnEdgesMean`: the drawing says what the board says.
- `ChunkedFilter.FilterChunks`, `FmReceiver.Receive`, `Worklog.PollStep`, `Burndown.CachedEqualsFresh`,
  `Framing.PrefixReads`: the streaming forms equal the batch forms.
- `SyncWindows.PopcountCounts`, `SyncSearch.HitsHaveEvents`: sync search is exact, and the drift of the
  greedy merge is bounded.

Seven things turned out otherwise than the code's documentation or its names suggest, and each is proved as
it is:

- KILL_RESUMES does not bound the resumes of killed runs, because the account limit's own resumes use the
  same counter unchecked: for every k there is a run with k of them (`WorkLimits.KillResumesUnbounded`).
  It bounds them exactly when every resume after a limit finds one left (`WorkLimits.KillResumesExact`);
  without that the bound with the limits added holds and is reached (`WorkLimits.KillResumesBounded`,
  `WorkLimits.BoundReached`).
- A tick that raises forgets what it started, because the claims are saved at its end: one request is
  started any number of times (`WorkRaises.RequestStartedAgain`), one ticket given any number of fix attempts
  (`WorkRaises.FixStartedAgain`). Counters are launches, and requests are answered once, exactly when no
  raising tick launched them (`WorkBounds.CountersAreLaunches`, `WorkBounds.DeflakesExact`).
- The gate's reserve is not kept when not even one worker fits beside it: the cap is still 1. It is kept
  at every launch exactly when one fits (`WorkBounds.ReserveHeld`, `WorkRaises.ReserveBroken`).
- A shell is not always hot throughout the time before it is killed: a process that loses the signature for
  a tick keeps its clock (`WatchdogSafety.IdleShellKilled`, `WatchdogSafety.ZombieKillExact`,
  `WatchdogSafety.ZombieKillSafe`).
- A history build with a limit records nothing as filed or closed in its first commit, and later builds
  keep that entry (`Burndown.LimitHidesFiling`); full builds are right exactly when no limited one entered
  a first commit in which something was filed or closed (`Burndown.LimitedBuildsExact`).
- A sync search over bits shorter than the pattern by more than one, but over half as long, does not find
  nothing: the array shapes do not match and it raises (`SyncWindows.Windows`).
- An AIS frame whose opening flag starts the line is lost, because the decoder sets the first line bit to 1
  whatever was sent (`AisDecoder.FirstFlagLost`, `AisDecoder.NoLeadInNoMessage`).

## Model

| member | source | states |
|---|---|---|
| AisLine.NrziRoundTrip | py/fixtures/ais_ref.py:122-129 | NRZI decoding recovers what was coded from either starting level, the first symbol aside |
| AisLine.NrziPolarity | py/fixtures/ais_ref.py:122-129 | Inverting the whole line decodes to the same bits |
| AisLine.HdlcDestuff | py/fixtures/ais_ref.py:132-148 | The counter loop computes the destuffing function: a zero after exactly five ones is dropped and every other bit kept |
| AisLine.DestuffStuff | py/fixtures/ais_ref.py:132-148 | Destuffing undoes stuffing for every payload and every count of ones carried in, payloads ending in five ones included |
| AisLine.DestuffDrops | py/fixtures/ais_ref.py:132-148 | Of any line, stuffed by a sender or not, destuffing drops exactly the zeros that follow exactly five ones |
| AisLine.StuffGrowth | py/fixtures/ais_ref.py:132-148 | Stuffing adds at most one bit for every five of the payload |
| AisLine.StuffHasNoSixOnes | py/fixtures/ais_ref.py:132-148 | A stuffed payload never holds six ones in a row, so no flag |
| AisLine.Find | py/fixtures/ais_ref.py:165-175 | The search loop finds the first flag at or after a place, and says when there is none |
| AisLine.FindFlags | py/fixtures/ais_ref.py:165-175 | The loop lists every flag position, overlapping ones too |
| AisLine.FlagPositionsComplete | py/fixtures/ais_ref.py:165-175 | A place is listed exactly when the eight bits there are the flag |
| AisLine.FlagPositionsOrdered | py/fixtures/ais_ref.py:165-175 | The places are listed in order, each once |
| AisLine.NoFlagInFrame | py/fixtures/ais_ref.py:178-188 | No flag starts between the two of a framed, stuffed payload, for every payload and whatever surrounds it |
| AisLine.OnlyTheTwoFlags | py/fixtures/ais_ref.py:165-175 | With no run of six ones in the bits around it the line has the frame's two flags and no other |
| AisCrc.Crc16X25 | py/fixtures/ais_ref.py:151-158 | The loops over a 16-bit integer - shift, mask and exclusive or - compute the complement of the register fed the octets least significant bit first |
| AisCrc.ClockOctet | py/fixtures/ais_ref.py:155-157 | The eight turns of the inner loop, on the integer, are eight clocks of the register |
| AisCrc.RegisterStep | py/fixtures/ais_ref.py:157-157 | One turn on the integer is one clock of the register |
| AisCrc.FeedOctetsIsFeed | py/fixtures/ais_ref.py:151-158 | Preloading an octet and shifting eight times is feeding its bits in air order |
| AisCrc.FeedLinear | py/fixtures/ais_ref.py:151-158 | The register is linear over GF(2) in its start and its input |
| AisCrc.FeedInjective | py/fixtures/ais_ref.py:151-158 | Different starts stay different under any input |
| AisCrc.PolyIsReflectedPoly | py/fixtures/ais_ref.py:151-158 | 0x8408 is the reflected generator x^16 + x^12 + x^5 + 1 |
| AisCrc.FeedIsRemainder | py/fixtures/ais_ref.py:151-158 | The register is the remainder of the dividend by the generator, and the only one: a register is the remainder if and only if it is what feeding gives |
| AisCrc.ResidueIff | py/fixtures/ais_ref.py:199-207 | Fed data and 16 check bits, the register ends at 0xF0B8 if and only if the bits are the complement of the register after the data |
| AisCrc.BurstIsSeen | py/fixtures/ais_ref.py:199-207 | A nonzero error within 16 consecutive bits changes the final register, wherever it is |
| AisCrc.FeedParity | py/fixtures/ais_ref.py:151-158 | The register keeps the parity of its input: x + 1 divides the generator |
| AisDecoder.FramesBetweenFlags | py/fixtures/ais_ref.py:178-188 | The loops give the destuffed span between each pair of flags the source pairs, in its order |
| AisDecoder.FramesAreEnclosed | py/fixtures/ais_ref.py:178-188 | The frames are exactly what any two flags with a bit between them enclose, destuffed, neighbours or not |
| AisDecoder.OctetsLsbFirst | py/fixtures/ais_ref.py:191-196 | The loops reassemble whole octets, least significant bit first, dropping a part octet |
| AisDecoder.DropPartOctet | py/fixtures/ais_ref.py:191-196 | A trailing part octet changes nothing |
| AisDecoder.OctetsAirRoundTrip | py/fixtures/ais_ref.py:191-196 | Octets sent least significant bit first come back as sent |
| AisDecoder.CheckCrcIff | py/fixtures/ais_ref.py:199-207 | A frame of whole octets is accepted if and only if the register over all of it, check sequence included, ends at 0xF0B8 |
| AisDecoder.BurstRejected | py/fixtures/ais_ref.py:199-207 | An accepted frame with a nonzero error within 16 consecutive bits is rejected, for every frame length |
| AisDecoder.OddErrorRejected | py/fixtures/ais_ref.py:199-207 | An accepted frame with any odd number of bits in error is rejected |
| AisDecoder.DecodeLineBits | py/fixtures/ais_ref.py:210-217 | The loop parses exactly the accepted frames, in order |
| AisDecoder.DecodedAre | py/fixtures/ais_ref.py:199-217 | Of any line exactly the messages of the accepted frames are decoded: frames of whole octets, three or more, whose register ends at 0xF0B8, read with each octet turned round and without the last two |
| AisDecoder.EachParts | py/fixtures/ais_ref.py:210-217 | The messages of some frames and then of others are those of all, in order |
| AisDecoder.FcsIsCrc | py/fixtures/ais_ref.py:199-207 | The check sequence defined by polynomial division, as in section 4.2.5 of ISO/IEC 13239 and Appendix C.2 of RFC 1662, is the one crc16_x25 gives |
| AisDecoder.FrameIsFound | py/fixtures/ais_ref.py:178-188 | A framed payload anywhere on the line is among the frames |
| AisDecoder.MessageDelivered | py/fixtures/ais_ref.py:210-217 | Any message, sent with its check sequence, stuffed, flagged and NRZI-coded from either level with anything before and after, is decoded to its fields |
| AisDecoder.MessageDeliveredAlone | py/fixtures/ais_ref.py:210-217 | On a line with nothing but that frame the decoder gives exactly its fields, and nothing else |
| AisDecoder.PolarityFree | py/fixtures/ais_ref.py:122-217 | Inverting the line changes nothing that is decoded |
| AisDecoder.FirstFlagLost | py/fixtures/ais_ref.py:122-188 | A line that starts with a flag is received without that flag and with every other, whatever follows, and its frames are those between the flags left |
| AisDecoder.NoLeadInNoMessage | py/fixtures/ais_ref.py:122-217 | So a message whose opening flag starts the line is lost when nothing after it could be a flag: the lead-in is necessary |
| AisDecoder.ReportDelivered | py/fixtures/ais_ref.py:210-252 | A class A position report sent from its fields is decoded to those fields |
| AisDecoder.HeaderDelivered | py/fixtures/ais_ref.py:210-240 | Any message of any type, sent over the line, is decoded to its type, repeat indicator and MMSI, with a position exactly when it has one |
| AisFields.IntRoundTrip | py/fixtures/ais_ref.py:224-226 | Two's complement of every width: the value read is the value written |
| AisFields.ReportRoundTrip | py/fixtures/ais_ref.py:229-252 | Every field of every position report is read back from the bits of the table's layout |
| AisFields.HeaderRoundTrip | py/fixtures/ais_ref.py:229-240 | Of every message, whatever its type and length, the type, the repeat indicator and the MMSI are read back, and the position fields are there if and only if the type is 1, 2 or 3 and the message has 168 bits |
| AisFields.CutHeader | py/fixtures/ais_ref.py:220-235 | A message that ends inside its MMSI gives the number its bits there make, and no position |
| AisFields.LongReport | py/fixtures/ais_ref.py:229-252 | Bits after a position report change nothing that is read of it |
| BitWords.UintRoundTrip | py/fixtures/ais_ref.py:220-221 | Reading a number back from its digits, most significant first |
| WorkRunner.Runner.FixRun | ops/work-runner.py:1653-1775 | launch_fix: held while a hold is in force or the host is full, else run with the counter that pays for it raised, else held when the remote launch fails |
| WorkRunner.Runner.ReapClaim | ops/work-runner.py:1379-1583 | _reap_one computes the step function, which WorkOutcomes reads as decision tables |
| WorkRunner.Runner.ReapRunning | ops/work-runner.py:1392-1411 | A run that goes on is left alone, or stopped at its time limit and wrapped up once |
| WorkRunner.Runner.FetchRemote | ops/work-runner.py:1412-1431 | A remote run goes on, is out of reach, cannot be synced, or its results are here |
| WorkRunner.Runner.JudgeWork | ops/work-runner.py:1483-1583 | Reaping a work or fix run computes the step function of WorkOutcomes.RunEnds |
| WorkRunner.Runner.ReapPass | ops/work-runner.py:1586-1609 | One pass over the claims, each judged on its own |
| WorkRunner.Runner.HandleGateFailures | ops/work-runner.py:2015-2105 | Failed reviews first, then the gate's new lines, one conflict fix per pass |
| WorkRunner.Runner.HandleGateLine | ops/work-runner.py:2040-2105 | A gate failure is seen once per claim, fixed, held or escalated |
| WorkRunner.Runner.RelaunchHeldFixes | ops/work-runner.py:3093-3121 | Held and limited claims are relaunched when the holds are off and the host has room |
| WorkRunner.Runner.ReleaseStaleClaims | ops/work-runner.py:1790-1827 | Claims released and nothing else touched |
| WorkRunner.Runner.PendingDeflakes | ops/work-runner.py:2845-2888 | The offers and the marks of stale requests over all tests |
| WorkRunner.Runner.DispatchDeflakeRun | ops/work-runner.py:2988-3006 | At most one deflake run a tick, for the oldest offer |
| WorkRunner.Runner.DispatchToHosts | ops/work-runner.py:2315-2338 | Tickets named by hand go to the first host, other eligible ones to the first with room, one launch per host a tick; a host that cannot be prepared is passed over, and a launch that raises ends the pass and the tick |
| WorkRunner.Runner.DispatchHere | ops/work-runner.py:2341-2411 | Candidates not named for a remote host start on the Mac while free slots remain, until a launch raises, which ends the tick |
| WorkRunner.Runner.DoTick | ops/work-runner.py:3124-3184 | One tick is the composition of its passes, in the source's order, as far as it gets, and says whether it raised |
| WorkRunner.Runner.DoTurn | ops/work-runner.py:3269-3277 | One turn of the loop: the claims are loaded, the tick runs, and they are saved unless it raised; what it started is in the log either way |
| WorkOutcomes.RunEnds | ops/work-runner.py:1483-1583 | Where a ticket's ended run goes, one if-and-only-if a state over what was observed: limited, killed, error, blocked, cancel proposed, uncommitted, no work, queued, sent to review, resumed; only a resume costs a counter, and which one |
| WorkOutcomes.RunParks | ops/work-runner.py:1483-1583 | A run that is not resumed changes nothing else of its claim: a review starts its own clock, any other end sets the state, the session it named and that it is no longer detached |
| WorkOutcomes.ReviewEnds | ops/work-runner.py:1461-1482 | A ticket's ended review: queued exactly on a pass, fixed exactly while its worker can be resumed and has an attempt left, else parked |
| WorkOutcomes.DeflakeEnds | ops/work-runner.py:3009-3075 | Where a deflaker's ended run or review goes, one if-and-only-if a state; it is queued only with its review passed and never resumed |
| WorkOutcomes.GoesOn | ops/work-runner.py:1388-1411 | A run that goes on is left alone before its limit; at it, it is stopped, and resumed to wrap up exactly when it is a work run with a session, a worktree, no wrap-up yet and no process left |
| WorkOutcomes.WaitsForHost | ops/work-runner.py:1412-1424 | A remote run whose results are not here: detached exactly while its host does not answer, held exactly when the copies have diverged |
| WorkOutcomes.ReapsItsOwn | ops/work-runner.py:1379-1387 | Reaping touches one claim and logs at most one line, of it; a claim neither running nor held for a sync error is left as it is |
| WorkQueue.QueuedEarned | ops/work-runner.py:3124-3184 | Over every run a claim in the merge queue was put there by an earlier turn that judged its run, and stayed: a review that passed, or work that ended done, ahead, clean and without limit, error or missing result, and asked for no review |
| WorkQueue.ReviewedFirst | ops/work-runner.py:1461-1482 | Over every run a ticket that asks for a review, and every deflake, is in the queue only since a review of it passed |
| WorkResumes.ResumeExact | ops/work-runner.py:1653-1775 | A resume starts a fix run, and logs it, if and only if no hold is on, one more worker beside the others is within the host's bounds, the host is fit and a remote launch gets through; else it is held at no cost |
| WorkResumes.CapExact | ops/work-runner.py:2296-2305 | The cap the runner computes for a host is the largest number of workers its bounds allow: WORK_CAP, beside a gate as many as leave it its cores but at least one, a remote host's own cap or 2 |
| WorkResumes.LineHandled | ops/work-runner.py:2040-2105 | One line of the merge gate: left for another turn, or remembered and the claim kept, parked, closed as conflicted or resumed, one if-and-only-if each over the line and the claim |
| WorkResumes.LineOnce | ops/work-runner.py:2040-2105 | A line that was acted on is not acted on again |
| WorkResumes.OneConflictRun | ops/work-runner.py:2060-2105 | A pass over any number of conflicts starts one run at most |
| WorkResumes.RelaunchExact | ops/work-runner.py:3093-3121 | A held fix waits while there is no room, is given up without a worktree on this Mac, and is else resumed for what it was held for; a limited run with a session is held as a killed one first, and one without is killed |
| WorkResumes.ReleaseExact | ops/work-runner.py:1790-1827 | A claim is removed if and only if it is freed, no deflake and came to nothing; closed if and only if it is queued and landed |
| WorkStarts.FreeSlotsExact | ops/work-runner.py:2341-2384 | The slots free on this Mac are the most that keep its workers within their bounds, at most PER_TICK, and none while a hold, load, disk or, where gates run alone, the merge queue forbids it |
| WorkStarts.LocalExact | ops/work-runner.py:2385-2411 | Given its slots, dispatch starts only candidates that may start here, each as a fresh claim, no more than there are slots, and leaves none out while one is free, unless a launch raises |
| WorkStarts.InOrder | ops/work-runner.py:2385-2411 | Later candidates get what earlier ones leave |
| WorkStarts.HostForExact | ops/work-runner.py:570-583 | A ticket named by hand goes to the first host, an eligible one to the first host with room for one more, another to none |
| WorkStarts.RemoteExact | ops/work-runner.py:2315-2338 | dispatch_remote adds fresh claims only, for candidates named or eligible, each on a host of its own |
| WorkStarts.NamedFirst | ops/work-runner.py:2315-2338 | A pass that does not raise starts every candidate named by hand that may start, or another on the first host |
| WorkStarts.NoneSent | ops/work-runner.py:2315-2338 | A pass that does not raise and starts nothing had no candidate named by hand and no room for any eligible one |
| WorkStarts.DeflakeStartsIff | ops/work-runner.py:2988-3006 | A deflake run starts if and only if a live request is of a test that is not deferred, no hold is on, one more worker is within this Mac's bounds and its disk has room |
| WorkStarts.DeflakeClaimed | ops/work-runner.py:2952-2985 | It starts on this Mac as a claim that asks for a review, has nothing spent and has consumed its request |
| WorkOrder.PassAlone | ops/work-runner.py:3124-3184 | A tick given one pass's inputs and nothing else does what that pass does |
| WorkOrder.TickInParts | ops/work-runner.py:3124-3184 | A whole tick does what eight ticks do, one for each pass in the source's order |
| WorkOrder.ReapSplits | ops/work-runner.py:1586-1609 | A pass over the claims is a pass over some and then over the rest: none is skipped |
| WorkSafety.TickKeeps | ops/work-runner.py:3124-3184 | One tick keeps the invariant from any book that has it, whatever its inputs and however far it gets |
| WorkSafety.RunKeeps | ops/work-runner.py:3269-3277 | After every run of turns, any of which may raise, the saved claims keep the invariant with the launches they account for, every launch was within its cap, and no request of a saved run is answered again |
| WorkBounds.AttemptsBounded | ops/work-runner.py:1653-1775 | In every run, between being claimed and any later moment a ticket is given at most FIX_ATTEMPTS fix attempts and one wrap-up, and those of ticks that raised; however often its fixes are held and relaunched |
| WorkBounds.AttemptsExact | ops/work-runner.py:1653-1775 | Over every run the budget bounds the fix attempts, and the wrap-ups, that are launched at every moment if and only if no attempt that follows a lost one exceeds it |
| WorkBounds.CountersAreLaunches | ops/work-runner.py:3124-3184 | In every run the launches since a ticket was claimed are its counters and the launches of ticks that raised, cause by cause; so the counters are the launches if and only if no raising tick resumed it |
| WorkBounds.CountersBounded | ops/work-runner.py:1653-1775 | Whatever raises, a claim's own counters stay within FIX_ATTEMPTS and TIMEOUT_RESUMES |
| WorkBounds.CapsHeld | ops/work-runner.py:535-567 | After every launch of every run, of raising ticks too, the running claims of its host that are no reviews number at most WORK_CAP on this Mac; beside a gate that does not run alone also max(1, (CORES - GATE_RESERVE) // WORKER_CORES); on a remote host, unless named by hand, its cap or 2 |
| WorkBounds.MacWithinCap | ops/work-runner.py:2341-2411 | So after every turn of every run at most WORK_CAP workers are on record on this Mac |
| WorkBounds.HoldsRespected | ops/work-runner.py:535-567 | No launch of any run is made through a usage limit, pause or gate hold, nor on a host that is not fit for it, hand-named remote tickets aside |
| WorkBounds.ReserveHeld | ops/work-runner.py:2296-2305 | For every launch of every run beside a gate on the Mac: workers x WORKER_CORES + GATE_RESERVE <= CORES if and only if one worker fits beside the reserve |
| WorkBounds.DeflakesAdvance | ops/work-runner.py:2952-2985 | Over every run, any run of a test after one whose tick was saved, itself saved or lost, answers a strictly newer request, and the claim has consumed the first |
| WorkBounds.DeflakesExact | ops/work-runner.py:3124-3184 | At every moment of a run each deflake run is newer than those before it for its test and consumed by its claim, if and only if no tick that raised had started one |
| WorkBounds.DeflakeStart | ops/work-runner.py:2988-3006 | From any book: a deflake run starts only without an open one, for the newest request, newer than the end of the run before |
| WorkLimits.KillResumesExact | ops/work-runner.py:1536-1546 | Over every run KILL_RESUMES bounds the kill resumes on a ticket's record at every moment if and only if no resume after an account limit is made once they are spent: no other pass breaks the bound |
| WorkLimits.KillResumesBounded | ops/work-runner.py:1536-1546 | Over every run a claim's kill resumes are bounded by KILL_RESUMES plus the account limits met |
| WorkLimits.BoundReached | ops/work-runner.py:3093-3121 | That bound is reached: for every number of limits there is a run that meets that many and whose claim has KILL_RESUMES kill resumes more |
| WorkLimits.KillResumesUnbounded | ops/work-runner.py:3093-3121 | For every k there is a run, never killed by a signal and with no tick that raises, whose claim has k kill resumes |
| WorkLimits.LimitSpendsKillResume | ops/work-runner.py:3093-3121 | The resume of a limited claim spends a kill resume unchecked: it ends within KILL_RESUMES if and only if the claim had one left |
| WorkLimits.FirstKillParked | ops/work-runner.py:1536-1546 | A reachable run that only the account limit ever stopped, KILL_RESUMES times, is parked the first time a signal kills it |
| WorkRaises.RequestStartedAgain | ops/work-runner.py:3124-3184 | For every k there is a run in which one deflake request is started k times, each time as the only claim on record, and no claim knows of it |
| WorkRaises.FixStartedAgain | ops/work-runner.py:3124-3184 | For every k there is a run in which a ticket is given k fix attempts and its claim counts none |
| WorkRaises.ReserveBroken | ops/work-runner.py:2296-2305 | When one worker does not fit beside the reserve there is a run with a launch beside a gate that leaves it less than its reserve |
| WorkDeflakes.OnlyStaleDropped | ops/work-runner.py:2845-2888 | A request is consumed without a run only when it is no newer than the end of its test's last run, or its start if it has no end, and that run is over |
| WorkDeflakes.StaleConsumed | ops/work-runner.py:2845-2888 | Once a test's run is over, a pass over it leaves exactly the requests no newer than that run's end, or than what was consumed before, consumed |
| WorkDeflakes.ReadyIsNewest | ops/work-runner.py:2845-2888 | An offer carries the newest request of its test, newer than what was consumed and than the last run's end |
| WorkDeflakes.LiveRequestOffered | ops/work-runner.py:2845-2888 | A live request is offered, itself or through a newer one, and has waited no longer than its offer says; a deferred one is not offered |
| WorkDeflakes.OldestFirst | ops/work-runner.py:2988-3006 | The run started is of a test with a live request at least as old as every live request of a test that is not deferred |
| WorkFates.RequestFate | ops/work-runner.py:2845-3006 | Over every stretch of every run in which a request goes from new to consumed, at one of its turns the test's run was over and had ended no earlier, or a run was started for it or a newer one and saved |
| WorkFates.DeflakePass | ops/work-runner.py:2988-3006 | One deflake pass from any book: a request it consumes was overtaken or answered |
| WorkDeflakes.KeyInjective | ops/work-runner.py:2988-3006 | Tests have claims of their own |
| TaskGraph.ClosureWalk | ops/monitor.py:404-415 | The stack walk yields exactly the anchors and their dependencies at any depth, each once |
| TaskGraph.AddOpened | ops/monitor.py:418-422 | Opened tickets join the nodes as they are |
| TaskGraph.MergeInto | ops/monitor.py:438-442 | The inner loop keeps, for each live ancestor, the shorter of the old way and one more than the new |
| TaskGraph.EffPreds | ops/monitor.py:430-445 | On an acyclic board the memoised recursion gives each live ancestor with the fewest done tickets on any all-done route, and nothing else |
| TaskGraph.EffUnique | ops/monitor.py:430-445 | There is one such map, so the order the memo is filled in does not matter |
| TaskGraph.ShortestThrough | ops/monitor.py:438-442 | A done predecessor passes on its own ancestors one done ticket further away, the minimum kept |
| TaskGraph.ContractionKeepsReachability | ops/monitor.py:425-445 | A live ticket reaches a live ticket in the contracted graph if and only if it does in the graph walked |
| TaskGraph.EmitEdges | ops/monitor.py:530-542 | One node's edges: one line per entry with its count, the index of each edge of an open milestone recorded |
| TaskGraph.StyleEdge | ops/monitor.py:540-541 | An edge's number is recorded for its milestone exactly when both ends belong to it |
| TaskGraph.DrawDependencies | ops/monitor.py:530-542 | The dependency edges of all live nodes say what their maps say, and the recorded numbers point at the right lines |
| TaskGraph.DrawnEdgesMean | ops/monitor.py:530-542 | Read off the drawing: two live tickets are joined if and only if an all-done route links them, and the label is the fewest done tickets on one |
| TaskGraph.DrawTaskGraph | ops/monitor.py:399-550 | The whole of it: a node is left out exactly when it is done or cancelled, collapsing is on and it neither runs nor has a runtime; the backbone comes first and nothing else is drawn twice; a ticket is joined to its milestone exactly when both are drawn and it is not a done one of an opened milestone; styling indices are exact |
| TaskGraph.BackboneMeans | ops/monitor.py:490-529 | The backbone joins each milestone of the chain to the next, and M1 to MUI always |
| WatchdogClocks.Watchdog.Held | ops/watchdog.py:406-413 | A clock starts when its condition does, is dropped when it ends, and has run long enough or not |
| WatchdogClocks.Watchdog.Evaluate | ops/watchdog.py:423-496 | Each clock after the two rules, which processes alarm and which shells are killed |
| WatchdogClocks.Watchdog.ClockOrphans | ops/watchdog.py:829-863 | The orphan clocks and who is due, clocks of pids no longer orphans dropped |
| WatchdogClocks.Watchdog.KillOrphans | ops/watchdog.py:795-825 | SIGTERM first and SIGKILL when one was sent before, only for pids confirmed by the second reading |
| WatchdogClocks.Watchdog.DoTick | ops/watchdog.py:899-945 | One tick of the killing passes and every clock after it |
| WatchdogClocks.Watchdog.KillNow | ops/watchdog.py:659-672 | The shells due are killed, those whose signal fails aside |
| WatchdogSafety.ZombieKillExact | ops/watchdog.py:431-444 | Over every run, a shell is killed if and only if the signal goes through, it is hot and unowned now, was a hot shell ZOMBIE_FOR ago or longer, and between was unowned and, whenever it carried the signature, hot |
| WatchdogSafety.ZombieKillSafe | ops/watchdog.py:431-444 | A killed shell was hot throughout a stretch of ZOMBIE_FOR if and only if some stretch that kills it has no tick at which it lacked the signature and idled; and it carried the signature throughout if and only if in some such stretch it always did |
| WatchdogSafety.IdleShellKilled | ops/watchdog.py:431-444 | Without that it need not have been: a run in which a process that lost the signature and idled in between is killed all the same |
| WatchdogSafety.AlarmExact | ops/watchdog.py:423-496 | Over every run, a process is reported if and only if it was unowned and over UNOWNED_CPU at every tick over the last UNOWNED_FOR or longer |
| WatchdogSafety.OrphanSignalExact | ops/watchdog.py:795-863 | Over every run, an orphan is signalled if and only if it has been one at every tick over ORPHAN_FOR or longer and the second reading confirms it |
| WatchdogSafety.OrphanKillSafe | ops/watchdog.py:795-863 | A SIGKILL follows a SIGTERM of an earlier tick of the same unbroken orphanhood |
| WatchdogSafety.TermRemembered | ops/watchdog.py:795-825 | A remembered SIGTERM belongs to the present orphanhood |
| WatchdogRoles.RoleWatch.CountMiss | ops/watchdog.py:600-612 | A missed check is counted, and a relaunch that came back dead with it |
| WatchdogRoles.RoleWatch.CheckOne | ops/watchdog.py:590-639 | One role's check moves its counters as the step function says and no other role's |
| WatchdogRoles.RoleWatch.Liveness | ops/watchdog.py:581-639 | At most one pass a minute, never without a process table, every role checked once |
| WatchdogRoles.RelaunchBound | ops/watchdog.py:581-639 | Between two healthy checks a role is relaunched at most RELAUNCH_TRIES times |
| WatchdogRoles.RelaunchGap | ops/watchdog.py:581-639 | Any two relaunches of a role are at least RELAUNCH_GAP apart |
| WatchdogRoles.RelaunchAfterMisses | ops/watchdog.py:581-639 | A relaunch follows LIVENESS_MISSES misses without a healthy check between them, never with a stop marker |
| WatchdogRoles.RelaunchExact | ops/watchdog.py:581-639 | Over every run of checks a role is relaunched if and only if it is dead now and at the second look, no stop marker exists, it was missed before with nothing healthy between, fewer than RELAUNCH_TRIES were tried since it was healthy and all RELAUNCH_GAP ago or longer |
| WatchdogRoles.GivenUp | ops/watchdog.py:600-639 | After RELAUNCH_TRIES relaunches nothing is tried until a healthy check, which forgets them |
| WatchdogOwners.Resolve | ops/watchdog.py:331-352 | The memoised recursion gives the owner its links define and keeps the memo right |
| WatchdogOwners.Attribute | ops/watchdog.py:306-356 | Whatever the order of the rows, exactly the processes with an owner, each with the right one |
| WatchdogOwners.OrderFree | ops/watchdog.py:306-356 | Two orders of the rows give one attribution, whichever ranks show that the links end |
| WatchdogOwners.NearestAnchorOwns | ops/watchdog.py:331-352 | A process with an anchored ancestor gets the nearest one's owner, never a group's, a worktree's or a fallback |
| WatchdogOwners.OrphanOfGroup | ops/watchdog.py:331-352 | A process that lost its parent belongs to its group's nearest anchor, whatever its worktree or fallback would say |
| WatchdogOwners.OrphanAlone | ops/watchdog.py:331-352 | One that lost its group too belongs to the worker whose worktree it runs from, and without one to its fallback |
| WatchdogOwners.OwnedIff | ops/watchdog.py:306-356 | A process is unowned if and only if nothing its parent and group links lead to has an anchor, a worktree or a fallback |
| ChunkedFilter.FirIsConvolution | py/fixtures/dmr_ref.py:322-326 | The filter run on carried partial sums from rest gives the convolution of its taps with the samples |
| ChunkedFilter.FirSplit | py/fixtures/dmr_ref.py:322-326 | Filtering the second part from the state of the first is filtering both at once |
| ChunkedFilter.EverySplit | py/fixtures/dmr_ref.py:326-326 | Taking every dec-th sample of two parts, the second from the shifted phase, is taking them of the whole |
| ChunkedFilter.EveryIsSlice | py/fixtures/dmr_ref.py:326-326 | The j-th sample taken is the one at phase + j dec |
| ChunkedFilter.FilterChunks | py/fixtures/dmr_ref.py:320-327 | The chunk loop equals one pass over the whole signal for every chunk length, tap set and decimation |
| ChunkedFilter.DecodeCi8 | py/fixtures/dmr_ref.py:312-327 | The whole front end, with its two error cases: a chunk shorter than the decimation, and nothing to join |
| ChunkedFilter.DecimatedIsConvolution | py/fixtures/flex_ref.py:198-213 | Its output is the convolution at every dec-th sample, and how many there are |
| FmReceiver.Receive | tools/fm_rx.py:33-61 | The receiver's loop over whole chunks equals the batch chain over all of them, with carried filter states, carried sample and restarted mixer, for every mixer of period 48 |
| FmReceiver.ReceiveStation | tools/fm_rx.py:20-61 | The same of the receiver itself, whose mixer turns by OFFSET / FS a sample |
| FmReceiver.HeardAre | tools/fm_rx.py:49-53 | Sample i is byte 2i and byte 2i + 1 as real and imaginary part, turned by the mixer at i steps of 250 kHz at 2.4 MHz |
| FmReceiver.StationMeans | tools/fm_rx.py:53-58 | Over plain numbers: channel samples are every tenth convolution of the real and of the imaginary parts, audio samples every fifth of the phase steps |
| FmReceiver.TurnedBy | tools/fm_rx.py:56-56 | For every angle function that depends on direction only, a sample turned by u from the one before gives the angle of u, whatever its own phase |
| FmReceiver.CarrierIsStill | tools/fm_rx.py:56-56 | An unmodulated carrier is silent: two equal samples give the angle of no turn |
| FmReceiver.CommonTurnUnheard | tools/fm_rx.py:56-56 | A common turn of the whole channel changes no step after the first |
| FmReceiver.DeemphasisMeans | tools/fm_rx.py:57-57 | Each de-emphasised sample is a of the one before and 1 - a of the step |
| FmReceiver.PcmMeans | tools/fm_rx.py:59-60 | A value times 16000 loses its fraction towards zero inside the 16-bit range and is held at its ends outside |
| FmReceiver.PeriodicMixer | tools/fm_rx.py:16-34 | 48 samples are whole turns of the mixer, from OFFSET and FS |
| FmReceiver.OneChunk | tools/fm_rx.py:47-59 | One turn carries exactly the states the batch chain has at that place and adds exactly its output |
| FmReceiver.MixerContinues | tools/fm_rx.py:33-34 | Restarting the mixer each chunk is the same as running it on: a chunk is a whole number of its periods |
| FmReceiver.ChannelMeans | tools/fm_rx.py:53-55 | The batch chain up to the discriminator: every tenth sample of the channel convolution, and the phase step from the one before |
| FmReceiver.AudioMeans | tools/fm_rx.py:57-58 | The batch audio: every fifth sample of the convolution of those steps |
| FmReceiver.OnePoleIsAverage | tools/fm_rx.py:57-57 | De-emphasis: each output is a fixed mix of the input and the output before |
| SyncWindows.PopcountCounts | py/fixtures/dmr_ref.py:119-123 | The word trick counts the ones of every word of up to 31 octets; nothing wraps before the product |
| SyncWords.Masks | py/fixtures/flex_ref.py:64-68 | The masks are the constants of the 32-bit and 64-bit forms |
| SyncWindows.PopcountIsHamming | py/fixtures/dmr_ref.py:156-156 | Popcount of the exclusive or is the number of bits that differ |
| SyncWindows.Windows | py/fixtures/dmr_ref.py:126-131 | The rolling words are the windows of the bits; when the numpy shapes do not match is stated exactly: width - 1 > bits and 2 bits > width |
| SyncWindows.ReverseWordReverses | py/fixtures/flex_ref.py:80-82 | Reversing the binary digits of a word reverses its bits |
| SyncMerge.MergeHits | py/fixtures/dmr_ref.py:161-168 | The merge loop computes the merge function |
| SyncMerge.MergeMeans | py/fixtures/dmr_ref.py:161-168 | Events are hits, more than the gap apart; every hit is accounted for within the drift its distance allows; none up to a gap later beats an event; their counts add up to all the hits |
| SyncMerge.DriftsPastTheGap | py/fixtures/dmr_ref.py:161-168 | The drift is real: an event can be more than a gap after a hit it accounts for |
| SyncMerge.SortSorts | py/fixtures/dmr_ref.py:160-160 | Sorting orders by position |
| SyncMerge.SortIsStable | py/fixtures/dmr_ref.py:160-160 | Sorting keeps hits in one place in the order they were found |
| SyncSearch.VariantHits | py/fixtures/dmr_ref.py:151-159 | The positions listed for a pattern and variant are those within the limit |
| SyncSearch.FindSyncs | py/fixtures/dmr_ref.py:139-169 | The search gives the events of the bits, or fails exactly on the lengths where the windows do |
| SyncSearch.HitsAreWindows | py/fixtures/flex_ref.py:98-104 | A hit is listed if and only if it is a window within the limit of a pattern, in either order and polarity, with its distance |
| SyncSearch.EventsAreHits | py/fixtures/dmr_ref.py:161-168 | Every event is such a window, and events are more than the gap apart |
| SyncSearch.HitsHaveEvents | py/fixtures/dmr_ref.py:161-168 | Every such window h has an event e with e.hamming <= h.hamming and h.bit - gap <= e.bit <= h.bit + gap (h.hamming - e.hamming) |
| SyncSearch.EventsAreNearest | py/fixtures/flex_ref.py:105-112 | No window from an event's place up to the gap after it is nearer to a pattern |
| SyncSearch.ExactSyncReported | py/fixtures/dmr_ref.py:139-169 | A pattern sent without error, in any order and polarity, is reported with distance 0 at most a gap early |
| SyncSearch.DmrValid | py/fixtures/dmr_ref.py:46-66 | The DMR search: 48 bits, limit 4, gap 2, four patterns that fit |
| SyncSearch.FlexValid | py/fixtures/flex_ref.py:29-33 | The FLEX search: 32 bits, limit 3, gap 1, one pattern that fits |
| SyncSearch.BestKey | py/fixtures/dmr_ref.py:188-193 | The key met most often, then with the least total distance, then first met |
| SyncSearch.ChosenKey | py/fixtures/dmr_ref.py:188-193 | The key chosen has events at no fewer places than any other; of those with as many, no greater distance; of those, it is the first met |
| SyncSearch.CountIs | py/fixtures/dmr_ref.py:188-190 | The count of a key is the number of places that have it, and of the events kept for it |
| SyncSearch.HammingIs | py/fixtures/dmr_ref.py:190-192 | Its distance is the sum of the distances of the events kept |
| SyncSearch.AllEventsAre | py/fixtures/dmr_ref.py:172-187 | The events compared are those of every phase's own search, each placed at its phase's offset and its symbol |
| SyncSearch.FindSyncsAnyPhase | py/fixtures/dmr_ref.py:172-206 | All phases searched, one key kept, merged by place in the signal, at least four sightings asked for |
| SyncSearch.ReportedAreHits | py/fixtures/dmr_ref.py:194-206 | What is reported is a window within the limit at its phase, of the chosen key, seen at least four times |
| SyncSearch.KeyEventsCovered | py/fixtures/dmr_ref.py:194-206 | Every event of the chosen key is accounted for by a merged one, reported if and only if seen four times |
| Worklog.Transcript.FeedEntries | ops/worklog.py:125-158 | Feeding entries moves the turns and the open turn as the step function says |
| Worklog.Transcript.Advance | ops/worklog.py:165-186 | A poll consumes exactly the whole lines appended since, and off stands after the last newline |
| Worklog.Transcript.TurnsOf | ops/worklog.py:165-186 | What a poll shows is one parse of everything up to the last newline |
| Worklog.EntriesConcat | ops/worklog.py:165-186 | Lines parse one by one: a cut after a newline splits the entries |
| Worklog.PollStep | ops/worklog.py:165-186 | After a poll the state is that of one batch parse of the prefix, from any earlier prefix |
| Worklog.ReadBlocks | ops/worklog.py:140-158 | The loop over a message's blocks computes the step function |
| Worklog.PartsAreLastRun | ops/worklog.py:120-158 | A turn's parts are its last maximal run of non-blank texts with no tool call in it |
| Worklog.ShownAreEpisodes | ops/worklog.py:120-158 | The turns shown are the prompts in order, each with the blocks up to the next, those without text left out |
| Worklog.TurnTextIsLastRun | ops/worklog.py:120-158 | Every turn shown carries the last run of its own prompt's blocks |
| Worklog.ShownTurns | ops/worklog.py:115-158 | A transcript shows one turn for each prompt that was answered in text, in order: the prompt, its last run of text and the time that was last said |
| Worklog.TurnOf | ops/worklog.py:120-158 | An episode has a turn if and only if it has text |
| Burndown.Summarise | ops/burndown.py:56-65 | Each count is the number of the snapshot's tickets of that milestone and status; milestones without any are absent |
| Burndown.History.Build | ops/burndown.py:68-108 | The loop fills the cache commit by commit, leaving entries that are there, and lists the rows of the window |
| Burndown.History.Scan | ops/burndown.py:83-95 | The entry of a commit: counts, and what is new since the commit before |
| Burndown.BuildsOk | ops/burndown.py:68-108 | After any builds without a limit of an ever longer log every cached entry is right |
| Burndown.CachedEqualsFresh | ops/burndown.py:68-108 | The rows from any such cache are those of a build from nothing |
| Burndown.RowMeans | ops/burndown.py:56-108 | The row of a commit counts the open, done and planned tickets of each milestone there, and how many were filed and how many closed since the commit before; none for the first |
| Burndown.WindowRows | ops/burndown.py:76-77 | The rows are of the last `limit` commits, or of all, in order |
| Burndown.LimitedFirstEntry | ops/burndown.py:76-93 | A build with a limit keeps the cache right if and only if its first commit was cached before or filed and closed nothing |
| Burndown.LimitedEntryStays | ops/burndown.py:76-93 | The entry a limited build made of a first commit in which something was filed or closed says neither, and stays through any later builds of the growing log |
| Burndown.LimitedBuildsExact | ops/burndown.py:68-108 | After any builds of a growing log, limited or not, a full build's rows are those of a build from nothing if and only if every limited build found its first commit cached or with nothing filed or closed |
| Burndown.LimitHidesFiling | ops/burndown.py:76-93 | A ticket filed in the second commit, a build of the last commit, then a full one: it is never counted |
| Framing.ReadExact | py/examples/hkstream.py:81-92 | However the bytes arrive: the next n bytes, nothing at a clean end, an error at a short one |
| Framing.ReadFrame | py/examples/hkstream.py:95-106 | A frame by its length prefix, with every error case, whatever the pieces the bytes arrive in |
| Framing.Records | py/examples/hkstream.py:138-147 | All frames to the end: decided by the bytes alone, not by their arrival |
| Framing.FramesRoundTrip | py/examples/hkstream.py:95-106 | Any frames within the limit come back as sent, then a clean end |
| Framing.OverlongStops | py/examples/hkstream.py:95-106 | The first frame over the limit stops the reader after exactly the frames before it |
| Framing.PrefixReads | py/examples/hkstream.py:81-106 | A stream cut anywhere gives exactly its whole frames, then a clean end or a truncation error, which of them decided by the cut |
| Framing.RecordRoundTrip | py/examples/hkstream.py:109-113 | Every record parses back to itself, signed index included |
| Framing.RecordsRoundTrip | py/examples/hkstream.py:138-147 | A list of records parses back to itself |
| Framing.StreamReader.ReadHeader | py/examples/hkstream.py:123-136 | The header is read once and then remembered |
| Framing.StreamReader.BinaryRecords | py/examples/hkstream.py:138-147 | The records of a binary stream, to its end, its first framing error or its first frame shorter than a record header |
| Framing.RecordsAreFrames | py/examples/hkstream.py:109-147 | The records are the frames parsed, up to the first short one, and the stop is the short record if there is one and else the frames' own |
| Framing.StreamRoundTrip | py/examples/hkstream.py:123-147 | A header and any records within its limit come out as sent |
| StreamConsumers.Bursts | py/examples/hk_bits.py:49-74 | Exactly the stream's bursts, in order, each once: a status and data are paired only with nothing between that ends the wait, so never across a drop marker |
| StreamConsumers.PackBits | py/examples/hkstream.py:166-174 | Octet i holds bits 8i to 8i + 7 in the order asked for |
| StreamConsumers.PackedBits | py/examples/hkstream.py:166-174 | Bit k of octet i, from its top or its bottom as asked, is the lowest bit of byte 8i + k |
| StreamConsumers.WriteWav | py/examples/hk_audio_wav.py:45-69 | The loop writes what the step function does, until enough is written |
| StreamConsumers.RecordWrites | py/examples/hk_audio_wav.py:49-66 | A record that is not data or is gated adds nothing; another adds silence for the time since the frame last due, one second at most, and then its frames |
| StreamConsumers.FramesAreBytes | py/examples/hk_audio_wav.py:62-62 | Frame k is there if and only if the payload has its bytes |
| StreamConsumers.TimeAccounted | py/examples/hk_audio_wav.py:45-69 | For every stream: written plus unfilled gaps is next_index - first_index plus what was written twice |
| StreamConsumers.SteadyLosesNothing | py/examples/hk_audio_wav.py:45-69 | written == next_index - first_index with nothing lost or repeated if and only if no index goes back and no gap is over a second |
| StreamConsumers.KeepsRealTime | py/examples/hk_audio_wav.py:45-69 | On such a stream each sample frame lies at its own index |

## Left out

- `find_bursts`, `slice_symbols` and `decode_channel` of ais_ref.py, the discriminators, symbol timing, level histograms and slot grids: estimation in floating point. The models start from sliced bits.
- AisLine.NrziRoundTrip: is stated for lines of at least one symbol; on an empty one the source raises IndexError, which is not modelled.
- AisFields.ReportRoundTrip: does not model the rounding of the scaled fields (speed, position, course); it gives their exact values.
- Rounding of the filters: `ChunkedFilter` and `FmReceiver` run over exact numbers. The angle function and the mixer's samples are arbitrary functions.
- The timing phases' bits and offsets in `find_syncs_any_phase` are inputs.
- WorkRunner.Runner.DoTick: does not model log and attention text, briefs, worktrees, the dashboards, load and over-budget alarms, or the part of a claim's reap done before an exception; whether a ticket's parallel group is full is an input.
- WorkRunner.Runner.DispatchDeflakeRun: a launch_deflake that raises is caught in the source and leaves the book a full disk leaves; it has no input of its own.
- WorkBounds.CapsHeld: does not bound hand-named remote tickets, which the source launches without asking for room, nor workers that ticks that raised started, which no later tick counts; and the cap is the one read when the dispatch pass began, so a gate that starts between two launches of one pass does not lower it for the second.
- WorkBounds.ReserveHeld: is likewise about recorded workers and the gate as the pass saw it.
- WorkLimits.KillResumesExact: is about the kill resumes of saved ticks; those of ticks that raised come on top, as WorkBounds.CountersAreLaunches says.
- Processes, ssh, git, tmux, ps, lsof, Discord and files: nondeterministic inputs.
- WatchdogClocks.Watchdog.DoTick: does not model the build-contention and radio alarms, nor the classification of command lines, which are given predicates on rows; pids are not reused while a clock runs.
- WatchdogSafety.ZombieKillSafe: assumes clocks that never go back.
- WatchdogOwners.Attribute: does not model chains deeper than 64 or cyclic ones, where the memo depends on the order of the rows; anchors, fallbacks and gate roots are given.
- TaskGraph.EffPreds: does not model cyclic boards, where the memo depends on the order it is filled in.
- TaskGraph.DrawTaskGraph: does not model labels, classes, node shapes and milestone folding; lines are values, not strings.
- Worklog.Transcript.TurnsOf: does not model transcripts rewritten at the same or a larger size (one that shrank is read again from its start), or the decoding of a line, which is an arbitrary function of its bytes.
- Burndown.History.Build: does not model the line scan of a snapshot, the cache file or the lock; a commit's snapshot is an arbitrary function of its hash. `series` only regroups rows.
- Framing.StreamReader.ReadHeader: does not model JSON; the header is an arbitrary function of its bytes, and text streams of JSON records are left out.
- StreamConsumers.WriteWav: does not model the WAV container; the file is a sequence of sample frames that name their record or are silence.
- The Rust crates, pages, handlers, alerts, metrics, build scripts and the CTCSS reference: interface, plumbing or near-duplicates.
