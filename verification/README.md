# Models of Hyperax's engines

Hyperax is a Go server for agents. Between its databases and transports sit small
engines whose correctness rests on invariants over whole runs. This project models
those engines in Dafny and proves what they promise.

- `Calendar`, `CronSchedule`, `CronParser`: cron expressions and the search for the
  next fire time, over the Gregorian calendar in UTC.
- `Pulse`: the cadence engine on top of them, interleaved with changes to cadences.
- `GlobFilter`, `RingBuffer`, `EventBus`, with `Events`: event type patterns, the
  replay buffer, and the bus with its Lamport clock.
- `Interject`, `AgentWalks`: the Andon cord, Safe Mode, and the halt cascade.
- `IndexWatcher`: the debouncer of file events, interleaved with its timer callbacks.
- `RateLimit`: the token bucket per IP.
- `Mailroom`, `SchemaId`: dispatch, retry and dead-lettering of mail; schema IDs,
  their registry and version negotiation.
- `CommHub`: bounded inboxes with an overflow store.
- `ActionManager`: guard actions that are approved, rejected or timed out.
- `Refactor`: moving blocks of lines between files.
- `Strings`, `Collections`: the Go library functions used, and facts about collections.

Objects whose methods update them are classes, and each method is proved against a
function or predicate on values. Protocols with several goroutines are state machines
whose runs are arbitrary interleavings; the class methods then perform the same steps.
History that the code does not keep (full logs, accounts of where each message is) is
kept in ghost fields or in fields that no operation reads.

## What the code does that its description does not say

- A step near the largest int (`*/9223372036854775807` in a day field) makes the loop of
  `parseTerm` wrap around, so that `parseField` returns values below the minimum:
  `CronParser.ParseField` says exactly when. Values within the bounds that the term does
  not ask for appear exactly when two steps come back into them, as with hour 8 of
  `10-20/9223372036854775807`: `CronParser.PlainIff` and `CronParser.FieldPlainIff`.
- Day of month and day of week must both match; POSIX crontab takes either.
- `NextAfter` gives up after 1460 days, one short of a leap cycle, and then returns the
  instant one minute later, match or not: see
  `CronSchedule.SearchAlwaysSucceedsIff` and `CronSchedule.EveryWeekdaySucceedsIff`.
- A resolver whose clearance cannot be looked up is not refused.
- A halt cascaded to descendants is stored with clearance 0, whatever the creator's; any
  resolver with a known clearance of 0 or more may lift it: `Interject.Manager.Halt`.
- A waiting callback of a stopped timer may dispatch a new event at once;
  `IndexWatcher.TakeIsQuietIff` says exactly when the quiet period is kept. It also takes
  the new timer out of the list, so that a later event can no longer stop that one and is
  dispatched early in turn: `IndexWatcher.ArmedIsListedIff`, `IndexWatcher.OrphanIsEarly`.
- A negative `MaxRetries` still allows one attempt.
- A move whose insertion fails has already removed the block from its source; a line
  that ends in a carriage return loses it on the way through the disk.
- Schema versions wrap to negative numbers, and `Negotiate` then may succeed with an
  empty ID.
- `UpdateCadence` keeps a new name when the new schedule does not parse, and a new
  schedule when the new priority is invalid: `Pulse.FailedUpdateUndoneIff`.
- With one tick loop the singleflight branch of `evaluateCadence` is never taken.

## Model

| member | source | states |
|---|---|---|
| Calendar.CivilRoundTrip | internal/cron/parser.go:243-246 | every day number is a date of the Gregorian calendar (leap years, month lengths, carry included) and that date has this day number again |
| Calendar.DateRoundTrip | internal/cron/parser.go:251-288 | every existing date is recovered from its day number, so a `time.Date` built from year, month and day has those fields |
| Calendar.CyclesRepeat | internal/cron/parser.go:243-246 | a day and the day any number of 400-year cycles away have the same month, day of month and weekday |
| Calendar.WeekdaysTakeTurns | internal/cron/parser.go:245 | 1 January 1970 is day 719162 and a Thursday, and the weekdays take turns from there in both directions |
| Calendar.MonthTable | internal/cron/parser.go:243-246 | the days before each month are those of the Gregorian calendar, with its rule for leap years |
| CronSchedule.NextValIsLeast | internal/cron/parser.go:292-299 | the next listed value is the least one above the current; when there is none, the least one of all |
| CronSchedule.AdvanceSkipsNoMatch | internal/cron/parser.go:251-288 | whichever field fails to match, the jump goes strictly forward and no minute it passes over matches, also when wrapped steps have left hours, days or weekdays below their bounds |
| CronSchedule.NextAfter | internal/cron/parser.go:218-238 | the skipping search terminates and gives what a minute-by-minute scan gives: the earliest matching minute strictly after `after` when one lies in the window of 1460 days, and one minute after `after` when none does; an `@every` schedule adds its duration |
| CronSchedule.NoLeapDayInWindow | internal/cron/parser.go:223-237 | the window asked for on a leap day holds no other 29 February |
| CronSchedule.SearchAlwaysSucceedsIff | internal/cron/parser.go:218-247 | for every schedule the search can use: it finds a match from every starting point if and only if, in one 400-year cycle of the calendar, some day matches and each matching day is followed by another within the 1460 days |
| CronSchedule.EveryWeekdaySucceedsIff | internal/cron/parser.go:218-247 | when all weekdays are listed this means that one of the dates exists in every year; 30 February and 29 February alone reach the fallback |
| CronParser.TermRangeIff | internal/cron/parser.go:136-189 | exactly which texts are terms and what range each asks for: `*`, a numeral n or a range n-m in bounds, each alone or with a positive step s; n and n/1 ask for n alone, n/s with s above 1 for n up to the maximum |
| CronParser.Enumerate | internal/cron/parser.go:190-198 | the loop lists, each value and no other, the residue class of the term within its range when the first addition stays in 64 bits, and otherwise the values that full turns of the 64-bit range come to from the first one, and those half a turn off; something negative is listed exactly then |
| CronParser.PlainIff | internal/cron/parser.go:190-198 | within the bounds a term has just the values it asks for if and only if two steps from its first value do not come back into them, that is lo + 2 * step < 2^64 + min |
| CronParser.ParseTerm | internal/cron/parser.go:136-198 | succeeds exactly on the terms `TermRangeIff` describes, with the error of the first check that fails, and lists exactly the values of that term's range and step |
| CronParser.LargeStepWraps | internal/cron/parser.go:190-198 | every step that takes the first value beyond the largest int is accepted and wraps |
| CronParser.SortInts | internal/cron/parser.go:202-212 | the in-place insertion sort leaves an ascending permutation of the array |
| CronParser.ParseField | internal/cron/parser.go:107-133 | a field parses exactly when all its terms do; the result is strictly increasing whatever order the set is iterated in and holds exactly the denoted values; it stays in bounds if and only if no term wraps |
| CronParser.FieldPlainIff | internal/cron/parser.go:107-133 | within the bounds a field holds exactly what its terms ask for in plain arithmetic if and only if every value a wrapped term has besides is asked for by another term |
| CronParser.Parse | internal/cron/parser.go:31-98 | an expression parses exactly when it is a shortcut, a positive `@every` duration or five well-formed fields; the schedule then matches a minute exactly when all five fields, weekday included, denote it; the search can use it if and only if no minute or month step wraps |
| CronParser.WordsAreRead | internal/cron/parser.go:45-98 | an expression of several words with any white space before, between and after them is read in their order: the first word is the minute, then hour, day of month, month, and the last the weekday; with any number of words but five, and no `@every`, it does not parse |
| CronParser.ShortcutsMean | internal/cron/parser.go:37-49 | the shortcuts name exactly the first minute of each year, month, week, day or hour |
| Strings.FieldsOfSpaced | internal/cron/parser.go:65 | non-empty words without white space, with any runs of it around and at least some between them, are split into just these words in order |
| CronParser.PlainFieldsSay | internal/cron/parser.go:31-98 | when no two steps of a term come back into its bounds, what an expression says about any minute is its reading in plain arithmetic, wrapped or not |
| GlobFilter.LeftmostSuffices | internal/nervous/filters.go:59-66 | exchange argument: if the pieces of a pattern fit a text at all, they fit with the first piece at its leftmost place |
| GlobFilter.GlobOfParts | internal/nervous/filters.go:49-57 | the character-by-character meaning of a pattern is that its pieces occur in order, with gaps exactly at the stars |
| GlobFilter.MatchGlob | internal/nervous/filters.go:49-74 | for every pattern with a star the greedy search answers yes if and only if the pattern's meaning admits the text; the answer for a star-free pattern, for which it is not called, is stated too |
| GlobFilter.MatchEventType | internal/nervous/filters.go:17-45 | star-free equality, the three shortcuts and the general search all give the one meaning of the pattern |
| Interject.InterjectionRepo.Create | internal/storage/sqlite/interjection_repo.go:18-43 | a new row under an unused ID or no change; an ID in use is refused |
| Interject.InterjectionRepo.Resolve | internal/storage/sqlite/interjection_repo.go:120-142 | only an active row is resolved, and nothing else changes |
| Interject.SafeModeController.Engage | internal/interject/safemode.go:52-98 | a fresh scope gets a state with this one interjection, a known one keeps its list extended without repetition; other scopes do not change |
| Interject.SafeModeController.Disengage | internal/interject/safemode.go:101-112 | exactly this scope is taken out |
| Interject.Manager.IsHalted | internal/interject/manager.go:242-265 | with a working store, yes exactly when the scope or the global scope has an active interjection that is critical or fatal; a failed lookup never invents a halt |
| Interject.Manager.SafeModeAgrees | internal/interject/manager.go:242-265 | with exact tracking Safe Mode and the store agree on every scope; when store calls may fail, a halt in the store is still one in Safe Mode |
| Interject.Manager.DisengageSafeModeIfClear | internal/interject/manager.go:456-485 | Safe Mode is lifted from a scope only if no active halt is left there, and exactness lost for this scope alone is restored |
| Interject.Manager.CascadeWalk | internal/interject/manager.go:334-406 | terminates on a cyclic hierarchy and creates one child interjection for each walk along child edges that the depth left allows, in that order |
| Interject.Manager.CascadeHalt | internal/interject/manager.go:322-328 | what a cascade adds are copies of the parent, and with a working store every agent 1 to 20 child steps away is in Safe Mode |
| Interject.Manager.Halt | internal/interject/manager.go:79-137 | keeps agreement of store and Safe Mode; on failure nothing changed; on success the scope is halted, the row stored carries the clearance of its creator when that is known and the given one otherwise, and a critical or fatal halt on a non-global scope adds exactly one interjection per walk of 1 to 20 edges, each with the severity of the halt and clearance 0, and engages every descendant so reached |
| Interject.Manager.Resolve | internal/interject/manager.go:141-203 | keeps agreement; succeeds exactly for an active interjection, a valid action and a resolver not known to have too little clearance, with the error of the first check that fails; then only that row changes |
| Interject.HaltThenResolve | internal/interject/manager.go:79-203 | over both operations: after a successful halt by a creator of known clearance, and any other requests, a resolution of that row by a resolver of known lower clearance fails and changes neither rows nor Safe Mode |
| Interject.Manager.RecoverOnStartup | internal/interject/manager.go:269-291 | from an empty controller the result is exact agreement with whatever the store holds |
| Interject.Manager.ExpireTTL | internal/interject/manager.go:294-316 | keeps agreement; only overdue active rows expire and the count is their number; with a working store exactly the active rows whose time has passed expire and no row changes otherwise |
| Interject.RunFromStartup | internal/interject/manager.go:79-316 | over every sequence of halts, resolutions and expiries after recovery: Safe Mode never misses a halt, and with a working store its map holds exactly the scopes with an active critical or fatal interjection |
| AgentWalks.WalksAreAll | internal/interject/manager.go:334-406 | the cascade's enumeration holds a walk if and only if it is one of 1 to depth child edges |
| AgentWalks.WalksDoNotRepeat | internal/interject/manager.go:334-406 | no walk is enumerated twice |
| AgentWalks.ReachedAreEnds | internal/interject/manager.go:334-406 | the agents a cascade visits are the ends of the enumerated walks, one by one |
| IndexWatcher.IndexWatcher.Debounce | internal/index/watcher.go:159-191 | the method on the mutable maps is the event step of the protocol |
| IndexWatcher.IndexWatcher.TakePending | internal/index/watcher.go:170-185 | the callback under the mutex is the take step of the protocol and reports whether an event was pending |
| IndexWatcher.IndexWatcher.CleanupTimers | internal/index/watcher.go:359-368 | the loop over the timers, in any order, is the one shutdown step of the protocol |
| IndexWatcher.InvAlways | internal/index/watcher.go:159-191 | every interleaving of events, clock, firings, callbacks, sends, receptions and shutdown keeps the debouncer's invariant |
| IndexWatcher.TakesAlternateWithEvents | internal/index/watcher.go:159-191 | between two dispatches for a path there is a new event for it |
| IndexWatcher.DebouncerIsCorrect | internal/index/watcher.go:159-191 | in every interleaved run each pending path has a callback to come, each dispatch carries the kind of the latest event, every message taken is being sent, queued, received or dropped, messages are received in the order in which the channel took them, and each one dropped found all 256 places of the channel taken |
| IndexWatcher.PendingCanBeTaken | internal/index/watcher.go:159-191 | no pending event is stuck: from every reachable state a run exists that dispatches it as last recorded |
| IndexWatcher.TakeIsQuietIff | internal/index/watcher.go:165-185 | in every reachable state, a callback that takes a pending event does so after the full quiet period if and only if the deadline of the path's listed timer has passed, whosever callback it is |
| IndexWatcher.ArmedIsListedIff | internal/index/watcher.go:159-191 | in every reachable state before shutdown an armed timer is the one listed for its path if and only if no waiting callback of another timer took its event, and with it its place in the list, since that event was recorded and before another was |
| IndexWatcher.FiringIsQuiet | internal/index/watcher.go:163-171 | a timer that was not orphaned that way fires only when the last event recorded for its path is at least 500 ms old |
| IndexWatcher.UnlistedTakeIsStale | internal/index/watcher.go:171-175 | a callback that takes an event without its timer being listed was already waiting when the latest event was recorded, or its timer was orphaned |
| IndexWatcher.StaleCallbackIsEarly | internal/index/watcher.go:161-168 | a run in which a stopped timer's waiting callback dispatches a new event without any quiet period |
| IndexWatcher.OrphanIsEarly | internal/index/watcher.go:171-175 | a run in which an orphaned timer dispatches an event 100 ms after it was recorded |
| IndexWatcher.NothingTakenAfterShutdown | internal/index/watcher.go:359-368 | after shutdown no callback takes an event any more |
| RateLimit.RateLimiter.Allow | internal/auth/ratelimit.go:75-105 | the bucket map and the answer after a call are those of the specification whose grants `WindowBound` and whose refusals `RefusedIff` describe |
| RateLimit.RateLimiter.Cleanup | internal/auth/ratelimit.go:109-119 | the deleting loop, in any order, removes exactly the stale buckets |
| RateLimit.TokensInRange | internal/auth/ratelimit.go:75-105 | in every run with non-decreasing time each bucket holds between 0 and rpm tokens |
| RateLimit.RelatedAnswers | internal/auth/ratelimit.go:75-119 | a limiter that cleans up buckets idle for a minute or more and one that never does give equal answers to every later call |
| RateLimit.WindowBound | internal/auth/ratelimit.go:75-105 | after any history, a window of T seconds grants one IP at most rpm + rpm * T / 60 calls, across such cleanups |
| RateLimit.RefusedIff | internal/auth/ratelimit.go:75-105 | the converse: after any history with cleanups of at least 60 seconds, a call is refused if and only if, for some earlier call, what the IP was granted from then on plus this one would exceed rpm + rpm * T / 60 in the T seconds between |
| RateLimit.CleanupUnobservableIff | internal/auth/ratelimit.go:109-119 | cleaning up at a given age changes no answer in any run if and only if the age is at least 60 seconds |
| Mailroom.Postbox.SendOutbound | internal/agentmail/postbox.go:41-73 | the mail is appended under a key not in use, or nothing changes |
| Mailroom.Postbox.DequeueOutbound | internal/agentmail/postbox.go:108-114 | batch and remaining queue together are the old queue; the batch is as large as limit and queue allow |
| Mailroom.InExactlyOnePlace | internal/agentmail/mailroom.go:131-232 | a mail ever sent is in exactly one of waiting, delivered, dead-lettered or (with a failing store) lost; while waiting it has had fewer than the maximum of attempts, delivered at most that many, dead-lettered exactly that many |
| Mailroom.Mailroom.Send | internal/agentmail/postbox.go:41-73 | a mail with a new ID enters the books as waiting, and they stay balanced, also while a batch is being dispatched |
| Mailroom.Mailroom.DeliverOutbound | internal/agentmail/mailroom.go:152-200 | one attempt keeps the books balanced and lowers the work left: a send that succeeds delivers the mail and clears its counter, one that fails queues it again below the maximum of attempts and dead-letters it at it; only a failing store can lose it |
| Mailroom.Mailroom.HandleDeliveryFailure | internal/agentmail/mailroom.go:204-232 | a failed send dead-letters the mail exactly at the maximum of attempts and queues it again before that; the work left falls |
| Mailroom.Mailroom.DispatchOutbound | internal/agentmail/mailroom.go:131-147 | a round takes a batch of at most the batch size, gives each of its mails one attempt and no other mail any, sends nothing new, keeps the books balanced, and with a working store and a non-empty queue lowers the sum of the attempts left |
| Mailroom.Mailroom.DispatchUntilEmpty | internal/agentmail/mailroom.go:131-232 | without new mail and with a working store repeated rounds terminate with an empty queue; delivered is exactly the mail for which some attempt within the maximum succeeds, dead exactly the rest |
| Mailroom.RunMailroom | internal/agentmail/mailroom.go:131-232 | for every sequence of sends, batches and attempts from an empty mailroom and every outcome of the sends: each accepted mail is in exactly one of waiting, delivered, dead-lettered and lost; a waiting one has failed at each of its attempts, fewer than the maximum, a delivered one succeeded at its last and only then, a dead one failed the maximum number of times; waiting is queue plus current batch, the dead-letter office holds exactly the dead mail; with a working store all mail sent is accepted and none lost |
| CommHub.CommHub.Deliver | internal/commhub/hub.go:577-633 | the recipient's inbox gets the message at its end and, when full, loses its oldest; the agent's account stays balanced |
| CommHub.CommHub.Receive | internal/commhub/hub.go:546-574 | removes the oldest messages in order, all of them when the limit is not positive or not below their number and else as many as it says; no other agent is touched |
| CommHub.CommHub.DrainOverflow | internal/commhub/hub.go:638-676 | with a working drainer it brings back exactly the smaller of the limit and the number of messages stored for the agent, messages that were stored and in one go behind what was delivered before; what was accepted and received stays as it was, and so does every other agent |
| CommHub.RunHub | internal/commhub/hub.go:546-676 | for every sequence of deliveries, receptions and drains from any overflow store: inboxes are bounded, what left an inbox followed by what is in it is all that was delivered (without a drainer, all that was sent) in order, and with a working persister stored at first plus sent equals replied plus waiting plus stored at last |
| ActionManager.InvAlways | internal/guard/action_manager.go:63-190 | every interleaving of the parts of creations, approvals, rejections, timeouts and channel reads keeps the invariant |
| ActionManager.SendKeepsInv | internal/guard/action_manager.go:144-150 | a decider finds the channel open and its buffer empty: its send neither blocks nor panics |
| ActionManager.DecisionsAreFinal | internal/guard/action_manager.go:63-190 | in every interleaved run each created action is exactly one of being created, pending and decided; undecided ones have an untouched channel, none is decided twice, and the channel of a decided one has carried nothing yet or exactly the decision in the log, approved if and only if the log says so, and is closed after it; the history is the end of the full log, all n decisions up to 1000 and beyond that the latest 500 + (n - 1001) mod 501 |
| ActionManager.ActionManager.CreatePending | internal/guard/action_manager.go:63-106 | the new action is pending with an untouched channel |
| ActionManager.ActionManager.DecideNow | internal/guard/action_manager.go:118-164 | fails without effect exactly when the action is not pending; otherwise it leaves pending, is logged once with the new status, decider and notes and all else as it was, and its channel holds the one decision and is closed |
| ActionManager.ActionManager.TimeoutAction | internal/guard/action_manager.go:166-190 | a pending action is logged once as timed out and its caller gets the rejection; an action that is not pending any more is left alone |
| ActionManager.ActionManager.GetAction | internal/guard/action_manager.go:205-222 | finds exactly the pending actions and those whose decision is still in the end of the log that is kept; a decided action is missed only when more than 1000 decisions were made |
| ActionManager.LatestAgree | internal/guard/action_manager.go:225-239 | read from their ends, history and full log agree as far as the history goes |
| ActionManager.ActionManager.History | internal/guard/action_manager.go:225-239 | returns the latest decisions ever made, latest first, as many as asked for or held |
| Refactor.ReadAfterWrite | internal/refactor/operations.go:123-190 | lines survive a trip to disk if and only if none holds a newline, ends in a carriage return or is longer than 65535 bytes |
| Refactor.ScanOfTerminated | internal/refactor/operations.go:123-190 | writing lines and reading them back takes one carriage return off each, or fails on a long line |
| Refactor.ScanOfAny | internal/refactor/operations.go:123-139 | what a scan finds in any content, given as terminated lines and a last one without a newline: the lines, each short of one carriage return, the last one only if it is not empty; it fails exactly on a line longer than 65535 bytes |
| Refactor.AnyContentIsLines | internal/refactor/operations.go:123-139 | every content has that form |
| Refactor.BlockLines | internal/refactor/operations.go:31-35 | which line of the file is which line of the block and of the rest, lines counted from 1 with both ends in the block |
| Refactor.InsertionLines | internal/refactor/operations.go:55-64 | an inserted block stands after the given line and the other lines keep their order |
| Refactor.ExtractedSplits | internal/refactor/operations.go:14-36 | the text of an extracted block splits into exactly the lines it came from |
| Refactor.MoveOutcome | internal/refactor/operations.go:105-120 | a move succeeds exactly under a condition on the files before it; then the source is short of the block, the destination holds it after the given line, and no other file changed |
| Refactor.BlockLostIff | internal/refactor/operations.go:101-120 | a failing move has already cut the block out of the source if and only if extraction and deletion work and the insertion alone does not; other files never change |
| Refactor.MoveConserves | internal/refactor/operations.go:105-120 | between two files the block is spliced in, the combined multiset of lines is kept, and both files stay clean |
| Refactor.MoveConservesIff | internal/refactor/operations.go:105-120 | a successful move between two files keeps the combined multiset of lines if and only if no line of either ends in a carriage return of its own |
| Refactor.MoveWithinConserves | internal/refactor/operations.go:105-120 | the same within one file, where the line to insert after counts in the shortened file |
| Refactor.MoveWithinConservesIff | internal/refactor/operations.go:105-120 | a successful move within one file keeps the multiset of its lines if and only if no line ends in a carriage return of its own |
| Refactor.MoveBackRestores | internal/refactor/operations.go:105-120 | moving the block back is possible and restores the lines of every file |
| Refactor.MoveBackRestoresIff | internal/refactor/operations.go:105-120 | after any successful move between two files the way back succeeds, and the lines of every file are restored if and only if both files were clean |
| Refactor.MoveWithinBackRestores | internal/refactor/operations.go:105-120 | the same within one file |
| Refactor.MoveWithinBackRestoresIff | internal/refactor/operations.go:105-120 | the same within one file |
| Refactor.Disk.ReadFile | internal/refactor/operations.go:123-139 | the scanning loop reads the lines of the content, or refuses |
| Refactor.Disk.WriteFile | internal/refactor/operations.go:143-190 | the new content is every line with a newline, put in place as a whole or not at all |
| Refactor.Disk.InsertCodeBlock | internal/refactor/operations.go:41-67 | files and error are those the specification gives for every input, the error cases in the order of the code |
| Refactor.Disk.DeleteCodeBlock | internal/refactor/operations.go:71-99 | likewise for deletion |
| Refactor.Disk.MoveSymbol | internal/refactor/operations.go:105-120 | the three calls amount to the specified move, and succeed exactly under its condition |
| RingBuffer.RingBuffer.Push | internal/nervous/ringbuffer.go:40-50 | the event joins the log and the slots keep holding the latest events |
| RingBuffer.RingBuffer.Snapshot | internal/nervous/ringbuffer.go:79-95 | the last min(n, capacity) events ever pushed, in order |
| RingBuffer.RingBuffer.Replay | internal/nervous/ringbuffer.go:55-75 | those of them with a higher sequence number, in order |
| RingBuffer.NewerIsExact | internal/nervous/ringbuffer.go:67-72 | the filter keeps exactly the events after the given number, none twice |
| RingBuffer.ReplayIsSuffix | internal/nervous/ringbuffer.go:52-75 | on increasing sequence numbers a replay is a suffix of the buffer |
| RingBuffer.ReplayCatchesUpIff | internal/nervous/ringbuffer.go:52-75 | a late subscriber misses nothing if and only if the newest overwritten event is one it has seen |
| EventBus.SwapFailsIff | internal/nervous/bus.go:105-117 | a compare-and-swap fails if and only if another value was issued since the load |
| EventBus.MergeIsAboveIff | internal/nervous/bus.go:105-117 | the merged value is above both clocks if and only if neither is the largest 64-bit number |
| EventBus.StampsAreOrdered | internal/nervous/bus.go:43-117 | in every interleaving that cannot overflow, issued values strictly increase and each merge returns one more than the greater of its argument and the clock at its turn, which is above all issued before |
| EventBus.DeliveredOnce | internal/nervous/bus.go:43-136 | in every such run nothing is sent on a closed channel and none is closed twice, buffers stay bounded, only a full one drops an event, no channel ever gets two events with one stamp, and each publication has put its event exactly once into each channel it was offered to so far whose filter wants it and which had room, and into no other; it is for exactly the channels subscribed while it holds the lock, and when over it was offered to all of them; a channel is open if and only if it is subscribed, about to be closed or replaced under its ID |
| EventBus.EventBus.Publish | internal/nervous/bus.go:43-59 | the clock goes up by one, or from the largest number to 0, and every subscribed channel, in any order, is offered the event with that stamp once; order of stamps is kept below overflow |
| EventBus.EventBus.Merge | internal/nervous/bus.go:105-117 | the loop returns one more than the greater of clock and argument, or 0 after the largest number; below overflow it is above every earlier stamp |
| EventBus.EventBus.Subscribe | internal/nervous/bus.go:63-75 | a new empty channel under the ID; a replaced channel is left as it was |
| EventBus.EventBus.Unsubscribe | internal/nervous/bus.go:90-101 | a subscribed channel is open and is closed; an unknown ID changes nothing |
| EventBus.EventBus.Shutdown | internal/nervous/bus.go:127-136 | every subscribed channel is open, is closed once and taken out, in any order; no other channel changes |
| SchemaId.ParseSchemaID | internal/agentmail/schema.go:42-72 | the digit loop with its 64-bit arithmetic computes the specified parts or error |
| SchemaId.ParsedIff | internal/agentmail/schema.go:42-72 | an ID parses to namespace, name and version if and only if it is dot-free namespace, dot, name, `.v` and digits whose wrapped value is this non-zero version |
| SchemaId.RoundTrip | internal/agentmail/schema.go:42-77 | every dot-free namespace, every name and every version from 1 to the largest int come back from the ID written with them |
| SchemaId.LargeVersionWraps | internal/agentmail/schema.go:58-64 | the ID with the next version number parses to the most negative version |
| SchemaId.SameKeyIff | internal/agentmail/schema.go:75-77 | IDs that parse share a key if and only if they share namespace and name |
| SchemaId.LookupIsRight | internal/agentmail/schema.go:98-149 | what a lookup finds has exactly the parts of the ID asked for |
| SchemaId.LookupAfterRegister | internal/agentmail/schema.go:98-149 | a registration is found under every ID with its parts and changes no other lookup |
| SchemaId.SchemaRegistry.Register | internal/agentmail/schema.go:98-129 | fails without effect exactly when the ID does not parse or its parts are taken |
| SchemaId.SchemaRegistry.Get | internal/agentmail/schema.go:133-149 | the schema registered under the parts of the ID |
| SchemaId.SchemaRegistry.Latest | internal/agentmail/schema.go:153-173 | the greatest version registered for the key; none exactly when no version is positive |
| SchemaId.Negotiate | internal/agentmail/schema.go:203-243 | fails exactly without a compatible supported ID; else a supported ID with the requested version if there is one, or one with the greatest version, or no ID at all when only negative versions are compatible |
| SchemaId.NamedIff | internal/agentmail/schema.go:203-243 | a negotiation succeeds if and only if a compatible ID is supported, and then names one if and only if the requested version is offered or some compatible version is positive |
| SchemaId.NothingNamed | internal/agentmail/schema.go:233-242 | a negotiation that succeeds without naming an ID |
| Pulse.NextTime | internal/pulse/engine.go:175-185 | parser and search together give the first minute that the five fields speak of, or the instant an `@every` duration later, or an error, as defined without either |
| Pulse.TimingOfFields | internal/pulse/engine.go:175-185 | five well-formed fields name the first minute they speak of within the window, and the instant a minute later when there is none |
| Pulse.InvAlways | internal/pulse/engine.go:109-210 | every interleaving of the parts of ticks (clock reading, snapshot, evaluations, dispatches) with creations, updates and deletions keeps each cadence's invariant |
| Pulse.CadencesKeepTime | internal/pulse/engine.go:109-210 | in every run each stored cadence is enabled and its schedule parses, fires strictly increase, none comes before the time named at the fire before it, the next fire is the time its schedule names after the last one, and the running mark is set exactly while the tick goroutine dispatches that cadence |
| Pulse.EveryKeepsItsDistance | internal/pulse/engine.go:184-185 | fires i and j under one `@every d` schedule are at least (j - i) * d apart |
| Pulse.EvaluationFiresIff | internal/pulse/engine.go:127-185 | at any point of any run an evaluated cadence fires if and only if its next fire time has come and it is not a background one under backpressure -- the singleflight and parse-error branches are never taken; it then gets the time its schedule names after this one, and no other cadence changes; a deferred one stays as it was |
| Pulse.Engine.ProcessTick | internal/pulse/engine.go:109-124 | in one tick, in any order, exactly the cadences fire whose time has come and that are not deferred, each once; they get the time their schedule names after this tick, the others do not change |
| Pulse.Engine.CreateCadence | internal/pulse/engine.go:341-396 | the first failing check is reported without effect; otherwise the cadence is stored as asked for, enabled and idle, in event mode by default, with the first time its schedule names |
| Pulse.Engine.UpdateCadence | internal/pulse/engine.go:401-438 | each part takes effect in turn, and what precedes an error stays changed; says of each field what it is afterwards, and which error comes first |
| Pulse.FailedUpdateUndoneIff | internal/pulse/engine.go:401-438 | an update that fails leaves the cadence as it was if and only if it brings no new name and no new schedule that parses |
| Pulse.Engine.DeleteCadence | internal/pulse/engine.go:441-456 | exactly the named cadence goes, or an error without effect |

## Left out

- CronSchedule.NextAfter: a wrapped minute or month step is excluded. It puts a huge negative entry into the field, of which `time.Date` makes a date far in the past with 64-bit overflow of its own; Go's date arithmetic out of range is not part of this model, nor are time zones and daylight saving.
- CronSchedule.AdvanceSkipsNoMatch: a wrapped minute or month step is excluded, for the reason given under `CronSchedule.NextAfter`.
- CronSchedule.SearchAlwaysSucceedsIff: a wrapped minute or month step is excluded, likewise.
- Pulse.NextTime: a wrapped minute or month step is excluded, likewise.
- Pulse.CadencesKeepTime: runs that store a schedule with a wrapped minute or month step are excluded, likewise.
- Pulse.Engine.UpdateCadence: schedules with a wrapped minute or month step are excluded, likewise.
- CronParser.Parse: the duration syntax of `@every` is Go's `time.ParseDuration` and a parameter here.
- RateLimit.WindowBound: tokens are real numbers; the rounding of 64-bit floating point is not modelled, nor are the proxy headers that determine the IP.
- RateLimit.RateLimiter.Allow: calls are atomic, as under the mutex, and the clock is a parameter that does not decrease.
- Interject.RunFromStartup: each operation is atomic. Safe Mode can disagree with the store when a halt lands between the check and the lifting in `disengageSafeModeIfClear`.
- Interject.Manager.Halt: published events, remediation dispatch and the time stamps of rows are not modelled.
- Interject: dead-letter queue, Sieve bypasses and history queries of the manager, which pass through to the store.
- IndexWatcher.DebouncerIsCorrect: file system events, workspace lookup and indexing around the debouncer are not modelled.
- Mailroom.Mailroom.DeliverOutbound: whether a send succeeds is a function of the mail and the number of the attempt; which adapter is chosen and inbound routing are not modelled.
- Mailroom.InExactlyOnePlace: IDs of mails sent are distinct and not empty; a mail whose generated ID collides is not covered.
- CommHub.CommHub.Deliver: messages are values, so a caller that changes an envelope after sending it is not covered; Send's context enrichment is not modelled.
- CommHub.CommHub.DrainOverflow: a drainer that fails takes nothing out; one that fails after marking some entries is not modelled. Stored entries belong to the recipient of their message, as the persister writes them.
- ActionManager.DecisionsAreFinal: random action IDs are taken to be distinct; that a timeout eventually fires is not claimed, since its timer may strike before the action is inserted.
- Refactor.Disk.WriteFile: directories, permissions and temporary files are not modelled; a write fails as a whole for paths marked read-only.
- Refactor.Disk.ReadFile: a file is unreadable only if missing or holding a line too long; other I/O errors are not modelled.
- RingBuffer.RingBuffer.Push: calls are atomic, as under the lock.
- EventBus.StampsAreOrdered: assumes remote stamps low enough that no addition of the run overflows; `EventBus.MergeIsAboveIff` says what happens at the limit.
- EventBus.DeliveredOnce: filters are functions of the event; the order in which concurrent publishers reach a channel is arbitrary, as in the code.
- SchemaId.SchemaRegistry.Register: schemas are values, so the parts that a failed registration still writes into the caller's object are not modelled; nor is payload validation.
- Pulse.InvAlways: IDs of cadences are distinct, one goroutine runs the ticks, and schedules whose minute or month step wraps are excluded, as in the search; dispatching a fire has no effect on the engine.
- Pulse.Engine.CreateCadence: schedules with a wrapped minute or month step are excluded, likewise; payloads and published events are not modelled.
- Databases, transports, file watching, tracing, cryptography, language parsing and the remaining services: foreign calls or plumbing without invariants of their own.
