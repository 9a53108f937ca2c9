# Verified model of the tinyagents harness core

This project models the parts of tinyagents where a mistake is easy to make and hard to see, and
proves what those parts are for. It covers:

- **Live tool calls** (`LiveSession`, `LiveGuarantees`, `LiveDelivery`, `LiveProgress`): the driver that reads
  provider events and the worker that runs tool calls, as one transition system over the bounded
  call queue, the bounded event channel, the shared set of cancelled ids, and a host that may
  disappear. Every interleaving is a run.
- **The grounded close** (`GroundedClose`, `CloseGuarantee`, with `Interpolate`, `QuoteGuard`,
  `CloseVerdict`, `RenderResults`, `TracedStream`): generate, screen, verify, repair at most once,
  fall back. The model and the verifier are an arbitrary script of streams, failures and delays.
- **Steering of detached tasks** (`RequestIds`, `Steering`, `SteeringGuarantees`,
  `SteeringDelivery`, `SteeringOwnership`): any number of concurrent steers over a registry whose tasks register, turn
  terminal and disappear between any two steps, with steers dropped at any point.
- **Durations and deadlines** (`DurationParse`, `DurationRoundTrip`, `DurationDirection`,
  `DurationLanguage`, `Weekday`, `TurnDeadline`):
  relative time expressions, and the stop points and clamps of a turn.
- **Outcomes, ids and indexes** (`TerminalOutcome`, `HashedId`, `ManagedTools`, `ModelCatalog`,
  `StopSummary`).

`Text` and `Decimal` hold the shared vocabulary. Code that works by updating variables is a method
proved against a specification; objects updated in place are classes; concurrent protocols are
state machines over their atomic steps, with a log from which every claim is read off.

Things outside the program are parameters or free choices: model and tool behaviour, delays,
pauses between requests, the digest function, the host's renderers and scrubbers, the tool-syntax
dialect, and the timestamp parser of the date library. Time is counted in nanoseconds.

## What the code does not do

Five things the source's comments suggest fail for some inputs. Each is stated with an input where
it fails and the exact condition under which it holds.

- Turn deadlines: "wind-down < hard stop < backstop for every positive backstop" holds exactly
  from 10 ns on (`StopPointsAreOrdered`, `ShortBackstopHasNoMargin`). Every backstop that parsing
  can return is far above that.
- The clamped ceiling ends after the hard stop exactly when that had already passed or less than one
  millisecond was left and the ceiling was not configured as zero (`ClampOverrunsIff`,
  `ClampCanOverrun`). Up to the hard stop it still ends before the backstop
  (`TurnEndsBeforeBackstop`).
- Managed tools: a refresh can leave one name both visible and deferred. It does so exactly when it
  admits a name that is deferred and not permanent (`RefreshSeparatesIff`, `RefreshCanOverlap`).
- Durations: the markers of the past do not always mean the past. "ago" yields to "in", "next" and a
  plus sign; a minus sign yields to "in", "next" and a lone "from now"; "last" and "past" yield to a
  plus sign (`MarkersDecideDirection`). So "in -5m", "in 5m ago" and "last +5m" all lie in the future
  (`MinusYieldsToIn`, `AgoYieldsToIn`, `LastYieldsToPlus`).
- Steering: access is checked when the task is looked up, the id is claimed later, and live handles
  are attached independently. If the task is registered again in between, a steer is recorded in the
  memory of another owner (`StaleLookupReachesOtherOwner`). Even on one and the same registration, a
  handle left behind by an earlier owner's run gets the message (`StaleHandleReachesOtherOwner`), and
  so does a handle to another task's run (`ForeignHandleReachesOtherOwner`). Steers of a task stay
  with their owner in every run exactly when everyone a host lets register the task, or attach runs
  under it, is one owner (`SafeIffOneOwner`).

One check is redundant: a repeated (provider, model id) pair in a catalog already is a repeated
name, so it only selects the error message (`RepeatedIdIsRepeatedName`).

## Model

| member | source | states |
|---|---|---|
| LiveGuarantees.AlwaysConserved | crates/tinyagents-live/src/worker.rs:126-177 | After every run, the calls enqueued are, in order, those settled, the one in flight and those still queued; the queue never exceeds its capacity |
| LiveGuarantees.WorkerAlwaysSound | crates/tinyagents-live/src/worker.rs:126-177 | In every interleaving the worker's history is orderly: each entry follows from the one before it, each decision agrees with the ids cancelled at that moment, and those ids only grow |
| LiveGuarantees.CancelledBeforeTakenIsNeverStarted | crates/tinyagents-live/src/worker.rs:132-136 | A call whose id was cancelled before the worker took it is skipped or abandoned, never started |
| LiveGuarantees.StartedWasCleared | crates/tinyagents-live/src/worker.rs:132-143 | Every start comes right after taking that call and finding its id not cancelled |
| LiveGuarantees.FinishedTellsWhetherSent | crates/tinyagents-live/src/worker.rs:132-168 | A finished call went through its whole episode; its result was handed over exactly when its id was not cancelled at the check after the tool ran, and the finished notice carries that same bit |
| LiveGuarantees.SentWasNotCancelled | crates/tinyagents-live/src/worker.rs:145-168 | A result goes out only right after the check that found its id not cancelled, and its finished notice says so |
| LiveDelivery.ForwardedIsPrefixToFirstClose | crates/tinyagents-live/src/runner.rs:126-149 | Forwarded events are a prefix of the received ones, at most one behind, and nothing is received or forwarded after the first close |
| LiveDelivery.NoticesArePaired | crates/tinyagents-live/src/worker.rs:137-168 | The notices the host hears are matching started and finished pairs with at most one open |
| LiveDelivery.OrderlyEndSettlesEveryCall | crates/tinyagents-live/src/worker.rs:126-177 | If the worker ends without abandoning a call while the host is there, the calls settled are exactly those the provider requested, in order, and every event was forwarded |
| LiveProgress.AtRestIffNothingToDo | crates/tinyagents-live/src/runner.rs:96-149 | With the host present and a provider that accepts results, no step of driver, worker or host reading is possible exactly when everything is read and the session is over or waits only for the provider: full channels and tasks waiting for each other never block it |
| LiveProgress.StandsStillIffProviderOwes | crates/tinyagents-live/src/worker.rs:145-150 | If the provider need not accept results, the session stands still exactly when it is at rest or the worker is handing a result over while the driver has nothing to do or waits for room in the queue |
| LiveProgress.OwnStepsAreBounded | crates/tinyagents-live/src/worker.rs:126-170 | However driver, worker and host interleave, they make at most a number of steps fixed by the state before the next provider event is needed |
| LiveProgress.DoneDriverDrains | crates/tinyagents-live/src/worker.rs:126-170 | Once the driver is done and if no call was abandoned, any interleaving run to its end stops the worker with every requested call settled in order, every event forwarded and read, within that number of steps |
| GroundedClose.StreamEndsAtFirst | crates/tinyagents-harness/src/close.rs:1104-1124 | The first ending item alone decides a stream, and exactly the text before it is kept |
| GroundedClose.ConsumeStream | crates/tinyagents-harness/src/close.rs:1104-1124 | The stream loop computes the result of reading the stream from the front |
| GroundedClose.Completion | crates/tinyagents-harness/src/close.rs:1071-1170 | One request ends unsent, timed out or by itself as its time left decides; the observer hears of it exactly when it ended by itself; the answer is the response, with the streamed text standing in for a blank one |
| GroundedClose.Close | crates/tinyagents-harness/src/close.rs:827-924 | For every script the requests made form one attempt, or a rejected attempt and one repair; the text is the result of those attempts, the usages are those of all answered requests in order, and the observer's notes match the requests |
| GroundedClose.CallsAreBounded | crates/tinyagents-harness/src/close.rs:842-923 | At most two generations and two verifications; a second generation exists exactly when the first attempt was rejected, and uses the repair prompt of that very violation |
| GroundedClose.TextIsFallbackOrVerified | crates/tinyagents-harness/src/close.rs:842-923 | The text is the fallback unless some verification accepted; then it is a non-empty candidate without tool call or quoted phrase that the very last request verified and accepted |
| GroundedClose.CloseKeepsBudget | crates/tinyagents-harness/src/close.rs:1092-1151 | A request is sent exactly while budget is left, is over when the budget is, and nothing is sent after a timeout |
| CloseGuarantee.ShownTextIsAccepted | crates/tinyagents-harness/src/close.rs:827-924 | With the harness's own rules: a shown text that is not the fallback quotes no guarded phrase, and the answer to the last request has acceptance as its last verdict word |
| CloseGuarantee.ShownTextCopiesNoDirective | crates/tinyagents-harness/src/close.rs:639-668 | A shown text that is not the fallback contains no copy of a long enough directive span, in any wrapping or letter case, however it is glued in |
| CloseGuarantee.CloseEndsBeforeBackstop | crates/tinyagents-harness/src/turn_deadline.rs:111-117 | A close on the turn's close budget that starts some lag after it was computed ends every request it sends at most that lag into the reserve, so before the backstop whenever the lag is shorter than the reserve |
| CloseGuarantee.LateCloseFallsBack | crates/tinyagents-harness/src/turn_deadline.rs:111-117 | Once the elapsed time reaches the reserve nothing is sent and the fallback is shown |
| Interpolate.LeftmostField | crates/tinyagents-harness/src/close.rs:75-89 | The field search finds the key that occurs first, ties going to the earlier field, or shows that none occurs |
| Interpolate.InterpolateOnce | crates/tinyagents-harness/src/close.rs:75-89 | The loop is simultaneous substitution: the template is split without looking at the values and inserted text is never scanned again |
| Interpolate.SubstituteAtLeftmost | crates/tinyagents-harness/src/close.rs:75-89 | Substitution copies the text up to the leftmost key, inserts its value, and resumes behind the key |
| Interpolate.SubstituteKeysIsIdentity | crates/tinyagents-harness/src/close.rs:75-89 | Replacing every key by itself gives the template back |
| Interpolate.LengthIsLinearInValues | crates/tinyagents-harness/src/close.rs:75-89 | The output length is the number of literal characters plus, over all fields, the value's length times the uses of its key in the template |
| QuoteGuard.ContainsIffAligned | crates/tinyagents-harness/src/close.rs:658-668 | The detector's substring test on normalised texts holds exactly when the phrase's words line up with the text's, the outer two possibly glued to other text |
| QuoteGuard.NormalizeIdempotent | crates/tinyagents-harness/src/close.rs:1172-1177 | Normalising keeps the folded words and is idempotent |
| QuoteGuard.WordsOfConcat | crates/tinyagents-harness/src/close.rs:1172-1177 | The words of two texts written one after the other are their words, with the two at the seam glued when no white space separates them |
| QuoteGuard.QuotesIffAligned | crates/tinyagents-harness/src/close.rs:658-668 | A candidate is flagged exactly when some phrase of enough characters lines up with its words |
| QuoteGuard.CopyIsAligned | crates/tinyagents-harness/src/close.rs:658-668 | The words of a copy line up in any text that contains it |
| QuoteGuard.RewrappedSpanIsFlagged | crates/tinyagents-harness/src/close.rs:649-668 | Every text containing the words of a long enough directive span is flagged, however re-wrapped, in any letter case, even glued at both ends |
| QuoteGuard.SpansWeaveBack | crates/tinyagents-harness/src/close.rs:649-656 | Splitting a directive into spans loses only its separators |
| CloseVerdict.ParseIsLastMark | crates/tinyagents-harness/src/close.rs:492-501 | Scanning letter runs backwards finds the last position where a verdict word stands alone |
| CloseVerdict.VerdictIsLastStandingWord | crates/tinyagents-harness/src/close.rs:492-501 | The verdict is that of the last verdict word standing alone in the answer, and unclear exactly when none stands there |
| RenderResults.RenderRow | crates/tinyagents-harness/src/close.rs:518-536 | One row is shown in full if it fits; otherwise it is cut and uses the whole remaining budget |
| RenderResults.RenderToolResults | crates/tinyagents-harness/src/close.rs:505-540 | The text never exceeds the budget; the rows shown are a suffix in original order and only the oldest may be cut; a text that fits is shown whole, otherwise the budget is used to within one character |
| RenderResults.RenderWithOptions | crates/tinyagents-harness/src/close.rs:568-599 | The blocks shown are the longest suffix within the budget, or the newest alone, in order behind the notice for the omitted number |
| RenderResults.LargerBudgetSelectsNoFewer | crates/tinyagents-harness/src/close.rs:576-598 | The selection is determined, and a larger budget never selects fewer |
| TracedStream.EveryCallClosesOnce | crates/tinyagents-harness/src/close.rs:250-305 | Wherever the consumer stops, it was given the inner items up to the first terminal one, and a started trace call ended exactly once: completed exactly when a completed item was forwarded, failed otherwise |
| TracedStream.ClosedWithoutWaitingForDrop | crates/tinyagents-harness/src/observability/supplemental.rs:108-168 | Once the terminal item was forwarded the trace is closed, and dropping the wrapper adds nothing |
| RequestIds.RecentRequestIds.constructor | crates/tinyagents-harness/src/steering/mod.rs:603-609 | A new memory is empty and holds at least one id |
| RequestIds.RecentRequestIds.Claim | crates/tinyagents-harness/src/steering/mod.rs:614-626 | An id is a duplicate exactly when it is among the last `capacity` granted ids, which are always exactly what is remembered; an oversized id changes nothing |
| RequestIds.GrantsAreSpaced | crates/tinyagents-harness/src/steering/mod.rs:611-626 | Over any claims, an id is granted again only after more than `capacity` further grants |
| SteeringGuarantees.AlwaysSound | crates/tinyagents-orchestration/src/steering.rs:200-257 | In every run each steer has delivered at most once, with a request id only under one grant of its own; failed and duplicate steers did neither; every delivery passed lane, access, id-length and text-length checks |
| SteeringDelivery.MemoryAlwaysSound | crates/tinyagents-tasks/src/runtime.rs:281-298 | In every run each task's memory is exactly the last 64 grants of its current registration |
| SteeringDelivery.RegrantIsFarAway | crates/tinyagents-tasks/src/runtime.rs:273-298 | Within one registration a request id is granted a second time only after at least 64 other grants |
| SteeringDelivery.DeliveryHasOwnGrant | crates/tinyagents-orchestration/src/steering.rs:233-256 | Every delivery with a request id comes after its own steer's single grant of that id on that task, and is that steer's only one |
| SteeringDelivery.RememberedIdIsDeliveredOnce | crates/tinyagents-orchestration/src/steering.rs:193-199 | Two deliveries of one request id to one task were claimed under two registrations of it, or with at least 64 other grants in between |
| SteeringDelivery.RefusedIffRemembered | crates/tinyagents-orchestration/src/steering.rs:233-242 | In every reachable state a claim is refused as duplicate exactly when its id is among the last 64 grants of that registration |
| SteeringDelivery.ResultTellsDelivery | crates/tinyagents-orchestration/src/steering.rs:213-257 | A steer that reports a route handed its message over exactly once, by that route; any other result means nothing was handed over and no id consumed; a steer without id is never a duplicate |
| SteeringDelivery.FailureLeavesNoTrace | crates/tinyagents-orchestration/src/steering.rs:186-192 | In every reachable state a steer that failed has claimed no id, been refused none and handed over nothing |
| SteeringOwnership.EveryEntryWasPermitted | crates/tinyagents-orchestration/src/steering.rs:133-152 | Every claim and every delivery was made after an access check that passed on some registration of the task the request names |
| SteeringOwnership.SafeIffOneOwner | crates/tinyagents-orchestration/src/steering.rs:213-257 | In every run under a host policy all claims and deliveries of a task land with an owner the steer may steer, exactly when everyone the policy lets register the task or attach runs under it is one owner |
| SteeringOwnership.StaleLookupReachesOtherOwner | crates/tinyagents-orchestration/src/steering.rs:230-242 | For every keyed owner steer there is a run in which its task is registered again by another owner after the lookup, and the claim lands there |
| SteeringOwnership.StaleHandleReachesOtherOwner | crates/tinyagents-tasks/src/runtime.rs:361-372 | For every keyed owner steer there is a run in which lookup and claim are on one registration, and a handle left behind by an earlier owner gets the message |
| SteeringOwnership.ForeignHandleReachesOtherOwner | crates/tinyagents-tasks/src/runtime.rs:361-372 | For every keyed owner steer there is a run in which a handle to a run of another task, attached under this one, gets the message |
| DurationParse.Tokenize | crates/tinyagents-harness-tools/src/time_parse.rs:56-79 | The character loop yields the maximal runs of digits and of letters, or fails on any other character |
| DurationParse.SumPairs | crates/tinyagents-harness-tools/src/time_parse.rs:80-100 | The checked arithmetic loop gives the exact sum of number times unit, and fails exactly when the list is malformed or the sum is too large |
| DurationParse.ParseRelativeDuration | crates/tinyagents-harness-tools/src/time_parse.rs:24-102 | The whole parser computes the meaning of the expression |
| DurationRoundTrip.TokensOfBody | crates/tinyagents-harness-tools/src/time_parse.rs:56-79 | Terms written compactly, spread out, with commas or with "and" are read back token by token |
| DurationRoundTrip.StripMarkersOf | crates/tinyagents-harness-tools/src/time_parse.rs:24-54 | Every combination of trailing, leading and sign markers is taken off again and yields its direction |
| DurationRoundTrip.PrintedMeansSignedSum | crates/tinyagents-harness-tools/src/time_parse.rs:24-102 | Any printed list of terms, in any style, letter case and padding, means its signed sum, and is rejected exactly when that sum exceeds the largest representable duration |
| DurationRoundTrip.PrintThenParse | crates/tinyagents-harness-tools/src/time_parse.rs:24-102 | Printing any numbers and units in one style and parsing the text gives the signed sum back |
| DurationDirection.MarkersDecideDirection | crates/tinyagents-harness-tools/src/time_parse.rs:18-19 | For every accepted expression with a total above zero and every combination of markers: exactly when "ago", a minus sign, "last" and "past" mean the past, when "from now" means the future, that "in", "next" and a plus sign always do, and that a bare duration looks back |
| DurationDirection.PrintedIsExpression | crates/tinyagents-harness-tools/src/time_parse.rs:24-102 | Every printed phrase with a representable sum is such an expression under the same markers |
| DurationDirection.MinusYieldsToIn | crates/tinyagents-harness-tools/src/time_parse.rs:48-54 | "in -5m" is five minutes ahead |
| DurationDirection.AgoYieldsToIn | crates/tinyagents-harness-tools/src/time_parse.rs:28-47 | "in 5m ago" is five minutes ahead |
| DurationDirection.LastYieldsToPlus | crates/tinyagents-harness-tools/src/time_parse.rs:35-54 | "last +5m" is five minutes ahead |
| DurationLanguage.SpellingOfTokens | crates/tinyagents-harness-tools/src/time_parse.rs:56-79 | Whatever the tokeniser reads is spelled from the tokens it returns, with gaps of blanks and commas between them |
| DurationLanguage.TokensOfSpelling | crates/tinyagents-harness-tools/src/time_parse.rs:56-79 | Every such spelling is read back as its tokens |
| DurationLanguage.RecoverMarkers | crates/tinyagents-harness-tools/src/time_parse.rs:24-54 | Every trimmed text is what marker stripping leaves, put back between valid markers of the direction it reports |
| DurationLanguage.ExpressionMeans | crates/tinyagents-harness-tools/src/time_parse.rs:24-102 | Numbers and units in any spelling, with "and" anywhere and any markers, mean their total in the direction of the markers |
| DurationLanguage.AcceptedIff | crates/tinyagents-harness-tools/src/time_parse.rs:24-102 | A text is accepted exactly when, trimmed and in lower case, it is such an expression with a representable total |
| Weekday.NextIsNearest | crates/tinyagents-harness-tools/src/time_parse.rs:204-207 | "next" names the first day with that weekday strictly after today |
| Weekday.LastIsNearest | crates/tinyagents-harness-tools/src/time_parse.rs:209-212 | "last" names the last such day strictly before today |
| Weekday.SinceIsNearest | crates/tinyagents-harness-tools/src/time_parse.rs:213-213 | "since" names the last such day up to today |
| Weekday.ThisIsInWeek | crates/tinyagents-harness-tools/src/time_parse.rs:208-208 | "this" names the one such day of the current week |
| TurnDeadline.StopPointsAreOrdered | crates/tinyagents-harness/src/turn_deadline.rs:83-95 | Wind-down < hard stop < backstop holds exactly for backstops of at least ten nanoseconds |
| TurnDeadline.ShortBackstopHasNoMargin | crates/tinyagents-harness/src/turn_deadline.rs:83-95 | Two positive backstops for which the order fails |
| TurnDeadline.ParsedBackstopIsOrdered | crates/tinyagents-harness/src/turn_deadline.rs:49-54 | Every parsed backstop has its stop points strictly ordered, with margins of at least 100 ms |
| TurnDeadline.ClampIsZeroOnlyIfConfigured | crates/tinyagents-harness/src/turn_deadline.rs:119-130 | The clamped ceiling is zero exactly when zero was configured |
| TurnDeadline.ClampOverrunsIff | crates/tinyagents-harness/src/turn_deadline.rs:119-130 | A clamped turn ends after the hard stop exactly when that had already passed, or less than a millisecond was left and the ceiling was not configured as zero |
| TurnDeadline.ClampCanOverrun | crates/tinyagents-harness/src/turn_deadline.rs:119-130 | An instant before the hard stop at which the clamped turn ends after it |
| TurnDeadline.TurnEndsBeforeBackstop | crates/tinyagents-harness/src/turn_deadline.rs:119-130 | Up to the hard stop, a turn under any parsed ceiling gets some time and ends before any parsed backstop |
| TurnDeadline.CloseLeavesReserve | crates/tinyagents-harness/src/turn_deadline.rs:111-117 | A positive close budget ends exactly at the reserve before the backstop, and is zero exactly from there on |
| TurnDeadline.WindDownFundsClose | crates/tinyagents-harness/src/turn_deadline.rs:85-117 | Winding down at its point leaves time to close exactly when a fifth of the backstop exceeds the reserve |
| TurnDeadline.TurnCeilingIsPositive | crates/tinyagents-harness/src/turn_policy.rs:101-119 | A ceiling is absent or at least one second, within 64 bits |
| TurnDeadline.LocalBackstopExceedsCeiling | crates/tinyagents-harness/src/turn_policy.rs:140-143 | The local backstop exists exactly when the ceiling does, lies strictly above it and fits 64 bits, whatever the override |
| TerminalOutcome.BuiltClassMatchesReason | crates/tinyagents-harness/src/terminal.rs:193-245 | Every outcome built by constructors, updates and merges carries the class of its reason |
| TerminalOutcome.LateKindIsKind | crates/tinyagents-harness/src/terminal.rs:215-234 | Adding a limit kind afterwards equals constructing with it |
| TerminalOutcome.MergedIsFirstLeast | crates/tinyagents-harness/src/terminal.rs:342-353 | Merging in any bracketing yields the first outcome of least rank, marked as having reached the provider exactly when some outcome had |
| TerminalOutcome.BracketingDoesNotMatter | crates/tinyagents-harness/src/terminal.rs:342-353 | Two bracketings of the same outcomes merge to the same outcome |
| TerminalOutcome.MergedPrecedence | crates/tinyagents-harness/src/terminal.rs:129-163 | A merge is cancelled exactly when some outcome was, complete exactly when all were, suspended or timed out exactly when the rank order says so |
| HashedId.DecodeEncode | crates/tinyagents-harness/src/driver_ids.rs:13-18 | The decoder inverts the length-prefixed encoding |
| HashedId.EncodeDecode | crates/tinyagents-harness/src/driver_ids.rs:13-18 | Every byte string the decoder reads is the encoding of what it returns |
| HashedId.EncodeInjective | crates/tinyagents-harness/src/driver_ids.rs:13-18 | Different lists of parts give different bytes |
| HashedId.HexInjective | crates/tinyagents-harness/src/driver_ids.rs:19-24 | Different digests print differently |
| HashedId.Id | crates/tinyagents-harness/src/driver_ids.rs:13-24 | The id is the hex of the digest of the encoded parts, fed one after the other |
| HashedId.IdsMeetOnlyByCollision | crates/tinyagents-harness/src/driver_ids.rs:13-24 | Two different lists of parts share an id exactly when the digest collides on their different encodings |
| ManagedTools.ManagedToolNames.RefreshSynthesized | crates/tinyagents-runtime/src/managed_tools.rs:32-50 | In place, the three sets become those of one refresh step, the step all run laws below are about |
| ManagedTools.ManagedToolNames.DeferVisible | crates/tinyagents-runtime/src/managed_tools.rs:54-65 | The removal loop moves exactly the names of one defer step, in place |
| ManagedTools.ManagedToolNames.MakePermanent | crates/tinyagents-runtime/src/managed_tools.rs:68-72 | In place, the three sets become those of one promote step |
| ManagedTools.PermanentAlwaysKept | crates/tinyagents-runtime/src/managed_tools.rs:26-72 | Under any steps permanent names stay visible and are never deferred |
| ManagedTools.HoldsExactlyKnown | crates/tinyagents-runtime/src/managed_tools.rs:26-72 | After any steps the sets together hold a name exactly when its own history of revocations, inclusions and promotions says so: revoked names are in none of them, and no name is gained or lost otherwise |
| ManagedTools.DeferredUntilReleased | crates/tinyagents-runtime/src/managed_tools.rs:26-72 | Over any steps a deferred name stays deferred until one of them promotes or revokes it |
| ManagedTools.PermanentUntilRevoked | crates/tinyagents-runtime/src/managed_tools.rs:26-72 | Over any steps a permanent name stays permanent and visible until one of them revokes it |
| ManagedTools.DeferOnlyMoves | crates/tinyagents-runtime/src/managed_tools.rs:52-65 | Deferring hides every named tool that is not permanent, reveals nothing, and loses no name |
| ManagedTools.RefreshWithoutAutoOnlyRemoves | crates/tinyagents-runtime/src/managed_tools.rs:32-50 | Without automatic inclusion a refresh takes the revoked names out of all three sets and changes nothing else |
| ManagedTools.NeverVisibleAndDeferred | crates/tinyagents-runtime/src/managed_tools.rs:26-72 | When each refresh starts from the last one's names and synthesized names avoid the host's, no name is ever both visible and deferred |
| ManagedTools.RefreshSeparatesIff | crates/tinyagents-runtime/src/managed_tools.rs:32-50 | A refresh keeps visible and deferred apart exactly when it admits no name that is deferred and not permanent |
| ManagedTools.RefreshCanOverlap | crates/tinyagents-runtime/src/managed_tools.rs:32-50 | A refresh that leaves one name in both sets |
| ModelCatalog.InsertNames | crates/tinyagents-registry/src/catalog.rs:281-289 | Inserting an entry's id and aliases succeeds exactly when all names stay distinct |
| ModelCatalog.CheckEntry | crates/tinyagents-registry/src/catalog.rs:233-290 | One round accepts an entry exactly when the list up to it is well formed, and otherwise reports the first rule it breaks |
| ModelCatalog.Validate | crates/tinyagents-registry/src/catalog.rs:224-293 | Validation accepts exactly the snapshots whose dates and entries are sound and whose names under one provider never coincide, and otherwise names the first ill-formed entry and its first broken rule |
| ModelCatalog.RepeatedIdIsRepeatedName | crates/tinyagents-registry/src/catalog.rs:233-289 | A repeated (provider, id) pair already is a repeated name |
| ModelCatalog.AtMostOneMatch | crates/tinyagents-registry/src/catalog.rs:126-136 | In a valid catalog at most one entry answers to a provider and an id or alias |
| ModelCatalog.GetIgnoresOrder | crates/tinyagents-registry/src/catalog.rs:126-136 | Lookup in a valid catalog gives the same entry for every permutation of its list |
| ModelCatalog.ValidityIgnoresOrder | crates/tinyagents-registry/src/catalog.rs:224-293 | Permuting the entries does not change whether they validate |
| StopSummary.GroupStopResults | crates/tinyagents-harness/src/turn_stop.rs:53-83 | One group per distinct key, in order of first occurrence, each counting its results; the counts add up to the number of results |
| StopSummary.RenderStopSummary | crates/tinyagents-harness/src/turn_stop.rs:86-136 | The summary is the opening, the lines of the last eight groups, a line for the hidden count if any, and the closing prompt |
| StopSummary.SummaryCountsEveryResult | crates/tinyagents-harness/src/turn_stop.rs:86-136 | Shown counts and the hidden count add up to the number of results, and a hidden count is printed exactly when there are more than eight groups |

## Left out

- Unicode case folding: lower and upper case are ASCII only, so the quote guard, which folds all of
  Unicode, is not modelled on letters whose case changes outside ASCII. Characters are Unicode scalar
  values; byte lengths appear only where the source limits bytes.
- Concurrency primitives: channels, locks and tasks are atomic steps of a state machine; wake-ups,
  fairness, timing and memory order are not part of it.
- LiveSession is a model on values; the tools' own effects, the retention of tool output and the
  transport behind the provider are not captured.
- Steering: message fencing and lane prefixes are left to the request, which the delivery carries
  unchanged; the registry's cancellation, waiting and sweeping appear only as tasks changing status or
  disappearing.
- ModelCatalog: the date library's timestamp parser is a parameter; prices are real numbers, so
  not-a-number and signed zero do not occur; reading the JSON snapshot is not modelled.
- LiveProgress.AtRestIffNothingToDo: takes handing a result to the provider as always possible, because
  the sender's code is not part of the repository; `StandsStillIffProviderOwes` covers a provider that
  does not accept it.
- StopSummary: the host's scrubber is a pure function.
- Interpolate requires non-empty keys, as every caller passes; the loop does not end on an empty key
  that matches.
- Close usage totals, pricing and the close copy texts: plain sums and constants.
- Required-output repair, checkpoints and halt messages in close.rs: single branches around the parts modelled.
- `refresh_prefix` in managed_tools.rs: sorting and formatting of a tool list.
- Calendar phrases, time zones and absolute dates in time_parse.rs: date-library behaviour.
- Definition sets, subagent loading, hooks, URL guard, token estimation, builders and sessions: maps,
  delegation, heuristics or I/O.
