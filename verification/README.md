# Zoaholic: a verified model of its streaming, retry, scheduling and key logic

Zoaholic is a gateway in front of many LLM providers. This project models, in Dafny, the parts of
it whose correctness rests on state kept over time, and proves what each part promises for every
input, every run and every behaviour of its surroundings. `dafny verify dfyconfig.toml` checks it.

**The stream gate** (`StreamErrors`, `StreamEvents`, `StreamGuard`, `StreamPipeline`,
`StreamUtils`). An inspector reads server-sent events from HTTP chunks in slices. The reference is
an automaton that reads one byte at a time; the slicing class is proved to end in the automaton's
state, so chunk edges (a CRLF cut in two, lines and events over 64 KiB) cannot matter.
`StreamEvents` says what a stream of events, written out as lines with names, data, comments and
blanks, lets the inspector conclude. Line endings are those of section 9.2.5 of the WHATWG HTML
Living Standard. A guard holds items back until they commit the stream, and a pump inserts keepalive
frames while a read stays in flight. `StreamUtils` is the line splitter used on other streams.

**The retry loop** (`RetryLog`, `RetrySteps`, `RetryLoop`, `RetryGroups`, `RetryRuns`). A request
walks over candidates, key budgets and priority groups, rebuilds its list, and may leave a virtual
route once. Its surroundings are an `Environment` that may answer every question anew each time it
is asked. A run writes a log of timed events; `Sound` says what every log obeys, the loop is proved
to write sound logs, and lemmas say what soundness means for whole runs. `RetrySteps` says of each
step what it makes of the log, the list in force and the cursor. A position is covered when it was
visited, or certified by a group check to be spent or limited, since the current list came into
force; every upstream call belongs to a visit of its own. `RetryGroups` and `RetryRuns` tell exactly
on which lists every earlier group is finished before a later one is entered.

**Scheduling** (`Scheduling`, `Providers`, `Routing`, `VirtualRouting`, `AttemptProviders`,
`LruDict`). Weights are normalised, scheduled by a ratio-based round robin, expanded to slots,
rotated by a cursor kept in a bounded dictionary, and deduplicated; a virtual model's chain orders
the groups. Ratios are compared as exact rationals.

**Keys and limits** (`RequestRecords`, `KeyPool`, `LoneDefaultRule`, `RateLimit`,
`GrowingWindows`). The logs of requests are trimmed, bounded to 1000 entries and cleaned up; they
are compared with the whole history of a run. A run is a trace of hand-outs, checks and cleanups
under a clock that does not run backwards. Where a loop over the keys yields, other tasks act on
the pool.

**Splitting and filtering** (`ClaudeThinking`, `PayloadFilter`). The tag splitter is compared with
one leftmost search in the whole text, for any lowercasing of characters. The payload filter works
on dictionaries in memory; what they mean is a tree, and deletions are compared with deletion in
that tree.

What the code calls but this project cannot see is a parameter: `json.loads`, UTF-8 decoding, the
error-envelope reader and the output classifier (`Protocol`), the times, the schedule of timeouts,
the outcome of attempts, the configuration at each lookup, and random draws.

## Findings

- **A model named "default".** A lone default rule bounds a key's total over all models unless a
  model with the literal name "default" is asked for beside an ordinary one: that name matches the
  rule exactly (`core/key_pool.py:357`) and is then counted on its own. `LoneDefaultExact`: for any
  list of limits the logs can keep, the total is bounded in all runs over a set of models if and
  only if the set does not mix "default" with an ordinary name or some limit admits no request at
  all; `DefaultNameExceeds` is the run that breaks the bound.
- **Growing windows.** `InMemoryRateLimiter` trims its log to the window it was just asked about, so
  after a change of limits (`routes/admin.py:34-35` replaces the global one while the log stays) it
  may admit what a limiter with full history refuses. `MixedLimitsExact`: over a set of single
  limits the two decide alike in all runs if and only if no limit of the set that admits a request
  has a shorter window than another of the set with a window above zero and a count of two or more.
  For lists of limits it is enough that the longest window of no list that admits a request is
  shorter than a window above zero that counts to two or more in another such list (`StaysAlike`),
  or that no call asks for a longer window than an earlier one did (`TrimmingIsInvisible`), which
  fixed limits satisfy.
- **Characters that grow in lowercase.** The tag splitter finds the tag in the lowercased text and
  cuts the original at that place (`plugins/claude_thinking.py:198-202`). The dotted capital I
  (U+0130) lowercases to two characters, so a text such as that letter, `</thinking>` and `x` is cut
  one place too far. `Transform` is right exactly when, in the search that completes the tag, every
  character before it lowercases to one; `EveryCuttingRight` says for which texts that holds however
  they are cut, and `GrownCharacterMisleads` covers the example.
- **The last delimiter.** Joining the decoded lines restores the input exactly when the input is
  empty or leaves a remainder after its last delimiter; otherwise one final delimiter is missing.
  That this is so exactly when the input does not end in the delimiter holds for the delimiters
  that do not overlap themselves, LF and CRLF among them, and for no others (`JoinConditionExact`).
- **Checks trim.** The comment on `is_all_rate_limited` (`core/key_pool.py:494`) says that it changes
  no state. It moves no index, but it may trim a log. Alone on the pool it leaves the records as
  they are if and only if every key is limited, or the first free key has an entry for the model
  with nothing out of the longest window (`CheckKeepsExact`, joined to the method by its last
  clause). `CheckTrims` is a run in which it trims, and `PeekKeepsWindows` shows that nothing a
  window of the rule can see is lost.
- **Groups are not always spent first.** Three skips pass a candidate without a check of its group:
  it is spent (`core/handler.py:836-837`), all its keys are limited but the check of its group
  fails (`core/handler.py:874-876`), or its attempt is skipped (`core/handler.py:958-961`). By the
  last clause of `Turn`, a turn on a virtual route leaves the group of its candidate without
  certifying anything or changing the list if and only if the candidate is the last of its group,
  the group is not the whole list, and one of the three skips passes it. Over runs, every member of
  an earlier group is spent or certified before a later group is entered, whatever the surroundings
  do, if and only if no group but the last can be walked through before the 500 attempts are used
  up (`Walkable`); with at most 500 candidates that is if and only if all candidates share one
  priority. `SpentFirstExact` proves it both ways, the failing side by a run from the start of the
  loop. `EdgeBetweenQuestions` is a run in which keys recover between the two questions and a later
  group is entered although nothing was called, counted or certified and every attempt would have
  been answered.
- **Dots reach protected keys.** The top-level keys that must not be deleted are protected only
  against entries without a dot (`core/payload_filter.py:273-278`); an entry such as `.model` deletes
  one. `ProtectedSurvives`: a protected key survives if and only if no entry is that key with dots
  around it.

## Model

| member | source | states |
|---|---|---|
| StreamErrors.StreamInspector.Feed | core/stream_errors.py:278-309 | feeding any item leaves the state the one-byte automaton reaches, buffers within 64 KiB; a record is concluded from as it is, an item of another kind only as a value without a name |
| StreamErrors.StreamInspector.FeedBytes | core/stream_errors.py:290-309 | the loop over line breaks reads a chunk as the automaton does |
| StreamErrors.StreamInspector.FeedBroken | core/stream_errors.py:292-304 | one slice and its line break: oversized slices dropped without copying, the LF of a CRLF ends no second line |
| StreamErrors.StreamInspector.FeedRest | core/stream_errors.py:305-309 | a slice without a break is appended, dropped while discarding, or starts discarding when too large |
| StreamErrors.StreamInspector.Finish | core/stream_errors.py:311-315 | an unfinished line is read and the pending event dispatched |
| StreamErrors.EndsStreamMeans | core/stream_errors.py:237-240 | a value ends the stream if and only if it is an object of one of three types, or an object under its choices or candidates gives a reason that Python counts as true |
| StreamErrors.StreamInspector.InspectEvent | core/stream_errors.py:228-243 | an error, the first of which is kept, or output or the end of the stream as the envelope reader, the classifier and the value's own fields say, and nothing else, is concluded from a value, and each commits |
| StreamErrors.StreamInspector.DispatchEvent | core/stream_errors.py:245-253 | from the gathered data, unless the event is discarded, follows what its parsed value says under the event's name, or for unparsable data what the name says; then data, name and discarding are cleared |
| StreamErrors.StreamInspector.ReadLine | core/stream_errors.py:255-276 | field handling of one line, with data beyond 64 KiB discarded and marked |
| StreamErrors.BrokenSliceIsRun | core/stream_errors.py:292-304 | a slice with its line break, handled at once, equals its bytes read one at a time |
| StreamErrors.SliceIsRun | core/stream_errors.py:305-309 | a slice without a break, handled at once, equals its bytes read one at a time |
| StreamErrors.RunSplit | core/stream_errors.py:278-309 | reading `a` then `b` leaves the same full state as reading `a + b`, for every split |
| StreamErrors.ChunkingIrrelevant | core/stream_errors.py:278-309 | any cutting of a byte stream into chunks leads to the state of the whole stream |
| StreamErrors.LineEndingsEquivalent | core/stream_errors.py:291-304 | CR, LF and CRLF end lines alike, oversized and discarded lines included |
| StreamErrors.InspectionKeeps | core/stream_errors.py:209-315 | over every run both buffers stay within 64 KiB, output, terminal and error imply commit, and no flag or first error ever reverts |
| StreamEvents.StripIs | core/stream_errors.py:259 | stripping an event's name takes the blanks off both ends and nothing else |
| StreamEvents.FieldRead | core/stream_errors.py:255-276 | one line of an event, read byte by byte: a name is set, a part joins the data or drops an event too large, comments, ids and retry lines change nothing |
| StreamEvents.EventRead | core/stream_errors.py:245-276 | after any name, data, comment, id and retry lines a blank line concludes what follows from the parts joined by LF under the last name, parsable or not; with data too large, only that there was output |
| StreamEvents.DoneRead | core/stream_errors.py:261-263 | a `[DONE]` line ends the stream at once, after any spaces and whatever has been gathered |
| StreamEvents.BareRead | core/stream_errors.py:272-276 | a line that is no field is concluded from as a value of its own, and the event gathered goes on |
| StreamEvents.LongLineRead | core/stream_errors.py:292-309 | a line over 64 KiB is dropped with its event and counts as output |
| StreamEvents.DroppedEnds | core/stream_errors.py:245-253 | a blank line ends a dropped event with nothing concluded |
| StreamEvents.FinishEndsEvent | core/stream_errors.py:311-315 | the end of the stream ends a pending line and its event as line breaks would |
| StreamEvents.StreamRead | core/stream_errors.py:228-309 | a stream of events from the start, for every cutting into chunks and all line endings: after each event exactly what follows from it has been concluded |
| StreamGuard.GuardStream | core/stream_errors.py:373-431 | exactly those items are held back up to which nothing was committed, fewer than 32 and under 64 KiB together; it ends at the first error met, raised with nothing yielded when it is met before release and commit, and otherwise as the source's end, its output and later reports say; and it is the outcome of the closed form |
| StreamGuard.GuardLoop | core/stream_errors.py:387-422 | the deque that is filled and drained yields and ends as the closed form without a buffer does, of which ReleasedMeans and OutcomeMeans say what is held back and how it ends |
| StreamGuard.ReleasedMeans | core/stream_errors.py:405-412 | the buffer has been released if and only if some item committed or met a committed response, or they are 32 or more, or 64 KiB or more |
| StreamGuard.OutcomeMeans | core/stream_errors.py:387-422 | the closed form said of the items alone: what is out after each item, where the first error is met, and how each end follows |
| StreamGuard.CloseStream | core/stream_errors.py:414-422 | at the source's end the outcome is the closed form's, the buffer flushed only when nothing raises |
| StreamGuard.YieldsPrefix | core/stream_errors.py:387-422 | the items yielded are a prefix of the source, all of it at a normal end, which never follows a stream without output, terminal event or error |
| StreamGuard.WithheldOnlyWhileProvisional | core/stream_errors.py:406-413 | items are held back only while none carried output, terminal or error and nothing was committed, at most 31 items and under 64 KiB |
| StreamGuard.EarlyErrorRaisesFirst | core/stream_errors.py:392-401 | an error found before release and commit raises with nothing yielded |
| StreamGuard.CommittedItemsPass | core/stream_errors.py:407-413 | an item that commits, or meets a committed response, is out before the next is asked for |
| StreamPipeline.WaitForTimeout | core/stream_pipeline.py:59-95 | a wait that times out leaves the read in flight; one that succeeds takes exactly the next item; re-entrance only when a second read is started |
| StreamPipeline.IterSseWithKeepalive | core/stream_pipeline.py:101-162 | for every pattern of timeouts the frames without keepalives are the items read, in order; each wait gives a keepalive exactly when it times out, and the one that finds the end gives nothing; re-entrance never happens |
| StreamPipeline.Forward | core/stream_pipeline.py:216-219 | without keepalives the items are forwarded in order and no frame is added |
| StreamPipeline.PrepareStream | core/stream_pipeline.py:165-202 | the five attempt keys are cleared; either the first item is in hand or its read is pending, never both; it raises exactly when the first read ends without an item |
| StreamPipeline.Replay | core/stream_pipeline.py:204-219 | the pending first read is handed over without loss or duplication, headed by a keepalive exactly when it is still pending; later frames are keepalives exactly where waits time out |
| StreamPipeline.Serve | core/stream_pipeline.py:165-235 | from guard to client: keepalives aside the client gets a prefix of the upstream items, all the guard let through once the body ends, all items at a clean end; keepalives stand exactly where waits time out, and it raises before the response exactly when nothing was let through by the first wait |
| StreamUtils.SplitRestores | core/stream_utils.py:78-91 | lines, delimiters and remainder make up the input, and no line holds a delimiter |
| StreamUtils.SplitContinues | core/stream_utils.py:70-84 | splitting a prefix and going on with its remainder gives the split of the whole, multi-byte delimiters across cuts included |
| StreamUtils.DrainLines | core/stream_utils.py:78-84 | the inner loop takes every complete line off the buffer |
| StreamUtils.DecodedLines | core/stream_utils.py:50-91 | whatever the chunks, the lines are the leftmost split of the whole input plus a non-empty remainder; an empty delimiter is refused |
| StreamUtils.JoinRestores | core/stream_utils.py:50-91 | joining restores the input but for one final delimiter, and exactly if the input is empty or leaves a remainder |
| StreamUtils.JoinConditionExact | core/stream_utils.py:78-91 | that joining restores exactly the inputs that do not end in the delimiter holds if and only if the delimiter does not overlap itself |
| StreamUtils.JoinRestoresByte | core/stream_utils.py:78-91 | for a delimiter of one byte joining restores the input exactly if it does not end in the delimiter |
| StreamUtils.JoinRestoresCrlf | core/stream_utils.py:78-91 | for CRLF joining restores the input exactly if it does not end in CRLF |
| ClaudeThinking.ThinkingStreamTransformer.HandleTextChunk | plugins/claude_thinking.py:187-236 | the tail of ten characters is held back until the tag has come, and the split stays right exactly when a search that completes the tag is over characters that lowercase to one each |
| ClaudeThinking.ThinkingStreamTransformer.Flush | plugins/claude_thinking.py:360-372 | what is held back goes out as reasoning or content and is cleared, as on `[DONE]` |
| ClaudeThinking.TagInTail | plugins/claude_thinking.py:196-230 | a tag not seen so far is found in the held-back tail and the new text, at its place in the whole, for every lowercasing |
| ClaudeThinking.TagMeans | plugins/claude_thinking.py:198 | the place compared with is the first at which the text spells the tag in any case |
| ClaudeThinking.SearchLands | plugins/claude_thinking.py:198-202 | searching the lowercase finds the tag exactly when it is there, as many places too far as the characters before it have grown |
| ClaudeThinking.TagFound | plugins/claude_thinking.py:199-216 | where the tag is found the split is right exactly when the characters before it lowercase to one each |
| ClaudeThinking.TagNotFound | plugins/claude_thinking.py:217-229 | without a tag all but the last ten characters go out as reasoning |
| ClaudeThinking.Transform | plugins/claude_thinking.py:139-236 | for every cutting and lowercasing, reasoning is the text before the first tag in any case and content the text after it exactly when the search that completes the tag is over characters that lowercase to one each; always no empty event, never more than ten characters held, none once the tag was seen |
| ClaudeThinking.EveryCuttingRight | plugins/claude_thinking.py:196-220 | every cutting of a text is searched plainly if and only if it has no tag or every character before the tag lowercases to one |
| ClaudeThinking.GrownCharacterMisleads | plugins/claude_thinking.py:198-202 | one character before the tag that lowercases to several makes the search land elsewhere |
| RateLimit.TrimmingIsInvisible | core/rate_limit.py:16-32 | while no call asks for a longer window than an earlier one did, the trimmed log decides every call as the full history does; for single limits GrowingWindows.MixedLimitsExact gives the exact condition |
| RateLimit.ReachedMeans | core/rate_limit.py:19-24 | a limit is reached exactly when the number of entries later than its cutoff is at least its count |
| GrowingWindows.MixedLimitsExact | core/rate_limit.py:16-32 | over a set of single limits trimmed log and full history decide alike in all runs if and only if no limit that admits a request has a shorter window than another that counts to two or more |
| GrowingWindows.GrowingWindowForgets | core/rate_limit.py:27-28 | for every such pair of limits a run whose last call the full history refuses and the trimmed log admits |
| GrowingWindows.StaysAlike | core/rate_limit.py:16-32 | for lists of limits none of which makes another forget, trimmed log and full history decide alike, end alike and count alike from every cutoff that nothing admitted has trimmed |
| RateLimit.SpacedWindows | core/rate_limit.py:19-24 | in a log whose entries each found room, no window holds more than the limit |
| RateLimit.WindowsRespected | core/rate_limit.py:16-32 | under fixed limits no window of any listed period ever holds more accepted requests than its limit |
| RateLimit.InMemoryRateLimiter.IsRateLimited | core/rate_limit.py:16-32 | limited exactly when some window holds as many entries of the log as its limit, failed without limits; an accepted call keeps exactly the entries of the longest window, in order, and adds its own; a refused one changes nothing, and neither touches other keys |
| Scheduling.GcdIsGreatest | core/routing.py:217-222 | the divisor divides both weights and every common divisor divides it |
| Scheduling.GcdOfIsGreatest | core/routing.py:222 | the folded divisor is the greatest common divisor of all weights |
| Scheduling.ReducedExact | core/routing.py:223-224 | the GCD step leaves positive weights in exactly the same proportions |
| Scheduling.NormalisedOrder | core/routing.py:215-229 | every normalised weight is at least 1 and the order of weights is preserved |
| Scheduling.NormalisedShare | core/routing.py:222-228 | with g the divisor, T the sum and w a weight: w / g when T is at most 1000 g, otherwise the s of at least 1 with T (s + 1) > 1000 w and, unless s is 1, T s <= 1000 w |
| Scheduling.NormalisedTotal | core/routing.py:225-228 | the normalised weights sum to T / g, or when scaled to within n of 1000 |
| Scheduling.PrefixFair | core/routing.py:248-261 | at every prefix (count_a - 1) * w_b <= count_b * w_a for any two names |
| Scheduling.FullScheduleExact | core/routing.py:248-261 | a fair schedule of full length picks every name exactly its weight times |
| Scheduling.SomeUnderserved | core/routing.py:252-258 | in every round some name's credit is at least its weight |
| Scheduling.RatioOrder | core/routing.py:253-258 | comparing credits per weight is comparing picks per weight, by exact cross-multiplication |
| Scheduling.BestIsLeast | core/routing.py:249-258 | the first largest ratio belongs to the first least served name |
| Scheduling.Round | core/routing.py:248-258 | the winner is the first least served name with a ratio of at least 1, so the sentinels never win |
| Scheduling.Schedule | core/routing.py:242-263 | every round's best ratio is at least 1 and each pick goes to the least served |
| Scheduling.WeightedRoundRobin | core/routing.py:232-263 | each name is picked exactly its share of the weights times, by division or by scaling to 1000 as NormalisedShare says, in at most 1000 + n rounds and at least 1000 - n when scaled, fairly at every prefix |
| LruDict.AgreesWithUnbounded | core/handler.py:84-104 | over every sequence of reads and writes at most `maxsize` entries, and a key is held with the unbounded value exactly when fewer than `maxsize` distinct others were touched since |
| LruDict.SurvivesOthers | core/handler.py:84-104 | a key just used survives with its value whatever is done to fewer than `maxsize` others and however often it is read |
| LruDict.LRUDict.Get | core/handler.py:89-104 | the stored value or the default; a hit becomes the newest |
| LruDict.LRUDict.Set | core/handler.py:94-99 | the entry becomes the newest and the oldest is dropped when there is one too many |
| Providers.FirstByNameFacts | core/handler.py:503-513 | deduplication keeps exactly the first slot of each name, in order |
| Providers.FirstKeepsPriority | core/handler.py:533-544 | deduplication keeps a list in priority order, each name at its lowest priority |
| Providers.PartsFacts | core/handler.py:522-544 | groups put one after the other in ascending order give a list in priority order with the same members |
| Routing.ByWeightFacts | core/routing.py:744 | the sort puts weights in descending order and is stable |
| Routing.ExpandedSlots | core/routing.py:767-770 | each pick of a name gives it one slot for each of its providers |
| Routing.ChannelWeights | core/routing.py:757-762 | the weight of a name is the last positive one among its providers, and the names come in the order in which they first have one |
| Routing.LastWeightMeans | core/routing.py:757-762 | it is found at the last provider of that name with a positive weight, and is 0 exactly when there is none |
| Routing.ApplyWeightOrder | core/routing.py:735-798 | outside lottery no candidate is lost and each name gets its normalised weight in slots for each of its providers; block after block come the providers of the names as the fair schedule, or the draw, picks them, in order of weight, then those without a weight |
| Routing.OrderCandidates | core/routing.py:800-815 | virtual candidates come out in chain order whatever the weights; outside lottery none is lost; a list in chain order without weights stays as it is |
| Routing.SkipsVirtual | core/routing.py:598-622 | a lookup that skips the virtual route never yields a virtual candidate |
| Routing.AvailableMeans | core/routing.py:656-714 | what a lookup finds, in order: of the virtual candidates, or the ordinary ones when there are none or they are skipped, those that fit; with a cooldown and two or more, those available; and when none is and the route was virtual, the ordinary ones, the available ones if there are two or more |
| VirtualRouting.ChainMatchesFacts | core/virtual_routing.py:178-209 | the matches of a chain are in chain order, each at a node that matches it, none missing |
| VirtualRouting.ResolvedFacts | core/virtual_routing.py:168-211 | the candidates are in chain order, each channel once, at the earliest node that matches it |
| VirtualRouting.ResolvedAre | core/virtual_routing.py:168-211 | said of configuration alone: which channel and upstream name stand at which node, pool sharing included, and that each is taken at its earliest place, in order |
| VirtualRouting.AppendMatch | core/virtual_routing.py:171-176 | a match is appended exactly when its name is not empty and has not been seen |
| VirtualRouting.ScanModel | core/virtual_routing.py:187-193 | a model node appends every enabled channel that has the model |
| VirtualRouting.ScanChannel | core/virtual_routing.py:199-209 | a channel node looks only at the first enabled channel of that name |
| VirtualRouting.ResolveVirtualModel | core/virtual_routing.py:136-211 | none for an unknown name, empty when disabled, otherwise exactly the channels that some node stands for, each once at its earliest place and with the upstream name of the node's model there, directly or under the prefix it shares |
| VirtualRouting.VirtualAttempts | core/virtual_routing.py:168-211 | for all filters, shuffles, weights, algorithms and cursors the attempt list is in chain order, each provider once at its earliest matching node with the upstream name it has there, none of the survivors missing outside lottery |
| AttemptProviders.FullPeriod | core/handler.py:484-501 | over a full period of advancing requests every slot heads the list exactly once |
| AttemptProviders.UniqueGroup | core/handler.py:501-513 | a group's list holds exactly the slot names, once each, in first-occurrence order from the start slot |
| AttemptProviders.CursorStored | core/handler.py:490-500 | the cursor is still there, with its value, after fewer than 500 other keys were touched and after any reads of its own |
| AttemptProviders.RotatesMeans | core/handler.py:476-478 | slots rotate unless priorities are fixed and no name is repeated |
| AttemptProviders.Advances | core/handler.py:494-497 | an advancing request moves the group's cursor on by one slot, from the first when there was none, and no other |
| AttemptProviders.ChainNotAdvanced | core/handler.py:494-500 | a list built without advancing moves no cursor that is stored, in any group |
| AttemptProviders.ChainAttempts | core/handler.py:519-544 | merging groups keeps chain order and each name at its earliest position |
| AttemptProviders.ModelRequestHandler.MoveCursor | core/handler.py:475-499 | where rotation applies the cursor advances, or is set once, and gives the start slot |
| AttemptProviders.ModelRequestHandler.BuildUniqueGroup | core/handler.py:468-513 | the slots from the start slot round, without later slots of a name |
| AttemptProviders.ModelRequestHandler.KeepUnseen | core/handler.py:534-542 | names already taken by an earlier group are left out |
| AttemptProviders.ModelRequestHandler.BuildAttemptProviders | core/handler.py:453-544 | exactly the slot names, once each; on a virtual route in chain order, each at its earliest position, whatever the cursors |
| AttemptProviders.FixedInOrder | core/handler.py:472-513 | under fixed priorities a list of distinct names in chain order is tried as it is |
| AttemptProviders.ChainHead | core/handler.py:526-544 | the list of a virtual route is headed by the slot at the first group's cursor, and the other groups touch only cursors of their own |
| AttemptProviders.ServeFullPeriod | core/handler.py:453-544 | over as many advancing requests as the first group has slots, with other traffic and rebuilds between, the slots heading the attempt lists are exactly the first group's, or all candidates' when the route is not virtual |
| AttemptProviders.ServeByWeight | core/handler.py:453-513 | candidates ordered by weight and rotated: over one request for each slot a name comes first its normalised weight times for each of its providers |
| RequestRecords.RecordsKeep | core/key_pool.py:338-401 | every log of every reachable pool is in time order, ends by now and has at most 1000 entries |
| RequestRecords.RuleForMeans | core/key_pool.py:354-369 | the rule named like a non-empty model wins; otherwise the first rule not named "default" whose name occurs in the model; otherwise the rule named "default", or 999999 in 60 seconds, and only then is it the default's |
| RequestRecords.OwnVerdictExact | core/key_pool.py:354-385 | under a rule of the model's own a key is limited if and only if some window of the model's whole history is full |
| RequestRecords.DefaultVerdictExact | core/key_pool.py:366-385 | while the default rule decides all of a key's requests the key is limited if and only if some window of its history over all models is full |
| RequestRecords.RecordedTracks | core/key_pool.py:371-399 | recording an allowed request keeps the log counting like the whole history as far back as the limit looks |
| RequestRecords.OwnTracked | core/key_pool.py:371-399 | in every run a model key's log counts like its whole history, and each hand-out found its window open |
| RequestRecords.ModelWindowsRespected | core/key_pool.py:338-401 | requests under one model key that follow the same limits never exceed them in any window |
| RequestRecords.OwnRuleRespected | core/key_pool.py:338-401 | the rule at a position that governs a model, by name or as the first part of it, bounds its hand-outs of each key in every window |
| RequestRecords.TotalTracked | core/key_pool.py:373-378 | while the default rule decides all of a key's requests, the logs of all models together count like the whole history |
| RequestRecords.DefaultRuleRespected | core/key_pool.py:366-385 | while the default rule decides all of a key's requests, it bounds the key's total over all models |
| RequestRecords.CleanupInvisible | core/key_pool.py:321-336 | a cleanup changes no answer under windows of at most an hour |
| RequestRecords.PeekKeepsWindows | core/key_pool.py:491-523 | a check removes nothing that a window of its rule can see, for any key or model |
| RequestRecords.CheckKeepsExact | core/key_pool.py:387-395 | a check leaves a key's records as they are if and only if the model has an entry and nothing in its log is out of the longest window |
| RequestRecords.TraceNext | core/key_pool.py:338-401 | each event extends a legal run and changes the records as modelled |
| LoneDefaultRule.UnmixedBounded | core/key_pool.py:357-378 | a lone default rule of any limits bounds the total when "default" is not mixed with ordinary names |
| LoneDefaultRule.DefaultNameExceeds | core/key_pool.py:357-369 | for all limits that admit a request and every other model, a run that exceeds the total of one of the limits through the name "default" |
| LoneDefaultRule.LoneDefaultExact | core/key_pool.py:357-378 | the total is bounded by each limit in all runs over a set of models if and only if "default" is not asked for beside an ordinary model or some limit admits nothing |
| LoneDefaultRule.CheckTrims | core/key_pool.py:387-395 | a run in which a check takes an entry off a log, as it does exactly where RequestRecords.CheckKeepsExact says |
| KeyPool.ThreadSafeCircularList.AnyLimitReached | core/key_pool.py:372-385 | true exactly when some limit of the rule is reached |
| KeyPool.ThreadSafeCircularList.IsRateLimited | core/key_pool.py:338-401 | under a rule that governs the model limited if and only if disabled, cooling or some window of the model's whole history is full; disabled, cooling or limited keys leave the records alone, otherwise exactly one hand-out or check is recorded |
| KeyPool.ThreadSafeCircularList.CleanupStaleRequestKeys | core/key_pool.py:321-336 | logs without an entry of the last hour go, and nothing else |
| KeyPool.ThreadSafeCircularList.Next | core/key_pool.py:404-463 | the first key in circular order from the start slot that is not limited on what its examination sees; each slot examined at most once, the index in range, only that key recorded, while other tasks switch keys and make checks at every yield |
| KeyPool.ThreadSafeCircularList.Circle | core/key_pool.py:435-463 | once around from the index, each slot limited on what its own examination saw until a key is picked, the 429 with the index back where it began; between examinations only checks are recorded |
| KeyPool.ThreadSafeCircularList.Examine | core/key_pool.py:437-440 | one examination moves the index and records the key exactly when it is free |
| KeyPool.ThreadSafeCircularList.Meanwhile | core/key_pool.py:458 | what other tasks do at a yield keeps the pool valid; without the lock they add only checks and start no cooling |
| KeyPool.ThreadSafeCircularList.NextAtOnce | core/key_pool.py:404-523 | at a frozen clock, nobody else acting and windows of at most an hour, 429 exactly when all keys are limited |
| KeyPool.ThreadSafeCircularList.CheckLeavesExact | core/key_pool.py:387-395 | a check that finds a key free leaves all records as they are if and only if that key has an entry for the model with nothing out of the window |
| KeyPool.ThreadSafeCircularList.IsAllRateLimited | core/key_pool.py:491-523 | true exactly when every key is limited on what its own examination sees, whatever other tasks do between; no index moves and of its own at most one check is recorded; alone, it leaves the records as they are exactly when all keys are limited or the first free one has nothing to trim |
| KeyPool.ThreadSafeCircularList.SetAutoDisabled | core/key_pool.py:235-254 | until the given time, or for good, no examination finds the key free under any model; afterwards the cooling no longer holds it, and every other key is as available as before |
| KeyPool.ThreadSafeCircularList.ResetItems | core/key_pool.py:187-193 | a changed list restarts the index, an equal one changes nothing |
| RetryLog.RunBounded | core/handler.py:816-823 | at most 500 attempts and one exit from the virtual route in every run, and never more upstream calls than attempts, BYOK included |
| RetryLog.CallsWithinBudget | core/handler.py:679-705 | no provider with own keys is called more often than its budget, even when keys recover, and a frozen budget never changes |
| RetryLog.BudgetAtFirstSight | core/handler.py:689-705 | the budget is the number of keys enabled, at least one, at the one moment it was frozen, before any call with these keys |
| RetryLog.NeverVirtualAgain | core/handler.py:774-804 | after the exit no list in force holds a virtual candidate |
| RetryLog.AnswerEndsRun | core/handler.py:943-1013 | every logged call and failure is that of the attempt made at its moment, and nothing follows an answer or a cancelled call |
| RetryLog.NoMemberPassedOver | core/handler.py:806-883 | a position is visited only after every earlier one was visited or certified exhausted since the list came into force, so no later group is entered past an unexamined member |
| RetryLog.CallTakesTurn | core/handler.py:823-883 | every upstream call belongs to a visit of its own of that candidate; when it is made every earlier position, and every member of an earlier group, has been visited or certified |
| RetryLog.CoveredMeans | core/handler.py:857-882 | a covered position was visited, or found spent or with all keys limited by a check that began after the list came into force and asked while it ran |
| RetryLog.GroupIsPriority | core/handler.py:806-814 | in a list in chain order the group range is the whole priority group |
| RetryLoop.RetryRun.PassSpentEdge | core/handler.py:836-837 | behind a spent candidate the next position is taken without a check, whatever the others have left |
| RetryLoop.RetryRun.KeySlots | core/handler.py:679-705 | one slot for BYOK, otherwise the budget frozen at first sight, at least 1 |
| RetryLoop.RetryRun.CalcRetryCount | core/handler.py:707-727 | twice the budgets of all candidates, for a single one its budget |
| RetrySteps.AttemptLimitMeans | core/handler.py:707-756 | the limit is that of the attempts made so far, one for each candidate and two for each of their keys, or for a single candidate one for each key, and 500 at most; each further candidate adds its own |
| RetryLoop.RetryRun.Fetch | core/handler.py:788-800 | the list is made of what the lookup of that moment finds, of ordinary candidates only when virtual ones are skipped, with distinct names and in chain order when virtual; when it finds none the reason is passed on, and without advancing no cursor moves |
| RetryLoop.RetryRun.Arrange | core/routing.py:716-718 | the list has exactly the names found, once each, in chain order on a virtual route, also after a random shuffle; a chain without weights under fixed priorities stays as it is |
| RetryLoop.RetryRun.AcceptRegularRoute | core/handler.py:774-780 | the list comes into force from its head, and the limit is set anew exactly when a virtual route gives way to a list without virtual candidates |
| RetryLoop.RetryRun.Rebuild | core/handler.py:1212-1226 | after a cooldown a list from the lookup of this moment, skipping virtual candidates once the route was left, comes into force from its head, the limit set anew exactly at the exit; without one nothing changes |
| RetryLoop.RetryRun.LeaveVirtualRoute | core/handler.py:782-804 | tried at most once; the list of the lookup of that moment, without virtual candidates, takes over from its head, and without candidates the loop ends, by the exception when the request is too long |
| RetryLoop.RetryRun.PriorityGroupRange | core/handler.py:806-814 | the maximal run of equal priority around a position |
| RetryLoop.RetryRun.GroupExhausted | core/handler.py:858-873 | a group passes only if every member was spent or had all keys limited when this check asked; otherwise some member is BYOK, or has budget left and had a key free when this check asked |
| RetryLoop.RetryRun.SkipLimited | core/handler.py:849-883 | a limited candidate is passed, or its group jumped when just certified, exactly as the group check answers; the loop stops only with no route left to leave |
| RetryLoop.RetryRun.StayInGroup | core/handler.py:1317-1338 | a cursor about to leave the group goes back to its head unless the check certifies the group |
| RetryLoop.RetryRun.AfterFailure | core/handler.py:1207-1345 | where the failure cools the channel down the list is looked up anew and comes into force from its head, or the run ends with the exception of the lookup; a failure without retry ends the run; a retry on a virtual route without a new list stays in the group unless it was certified exhausted in this step |
| RetryLoop.RetryRun.CountFailure | core/handler.py:1012-1013 | exactly one failure is counted for the provider, within its budget |
| RetryLoop.RetryRun.Visit | core/handler.py:823-826 | the next position in circular order is taken and the attempt counted |
| RetryLoop.RetryRun.AskKeys | core/handler.py:836-850 | a candidate's budget and then its keys are asked about, with the answers of these moments |
| RetryLoop.RetryRun.Attend | core/handler.py:828-883 | whether a candidate is passed, its group jumped, or neither, follows from budgets, counts and the answers asked for; otherwise the cursor stays in the group unless something was certified or installed |
| RetryLoop.RetryRun.Proceed | core/handler.py:836-883 | the same from the moment the candidate's keys were asked about |
| RetryLoop.RetryRun.Try | core/handler.py:943-1013 | the candidate just visited is asked at most once, an answer or the client's leaving ends the run, a skip changes nothing, and a failure is counted, logged and handled as AfterFailure says |
| RetryLoop.RetryRun.Turn | core/handler.py:816-883 | one attempt is counted, what becomes of it follows from budgets, answers and the attempt made at that moment, and a stop has its reason; on a virtual route a turn leaves its group uncertified if and only if its candidate is the last of a group that is not the whole list and is spent, skipped, or limited while the group check fails |
| RetryLoop.RetryRun.Round | core/handler.py:816-883 | one pass of the loop is a turn, or without candidates or attempts the way out of the virtual route; every end is justified by its log |
| RetryLoop.RetryRun.Begin | core/handler.py:755-772 | it raises exactly when the lookup yields no list, and otherwise sets the first list and its attempt limit, made of the candidates found and with the cursors advanced; nothing is logged but the list and the budgets frozen for it, and an unweighted chain under fixed priorities comes into force as it is |
| RetryLoop.RetryRun.RequestModel | core/handler.py:816-883 | every request ends in any surroundings with a sound log and no more upstream calls than attempts; an answer ends with an upstream call just answered, a refusal with a failure that allows no retry, an exception with the client's leaving or a lookup without a list, and giving up means that nothing, or no attempt, is left, or the only candidate or the last group is exhausted, and no virtual route can be left |
| RetryGroups.CertifiedWhole | core/handler.py:857-882 | certified candidates come in whole groups, without a BYOK member and with some member visited |
| RetryGroups.CoverCosts | core/handler.py:849-883 | to cover the groups before a boundary takes as many visited positions as the cheapest way past them |
| RetryGroups.CertifiedOrWalkable | core/handler.py:816-883 | when a candidate behind a group is taken, the group was certified or the list has a group that can be walked through |
| RetryGroups.GroupsCertifiedFirst | core/handler.py:816-883 | on a list without such a group every member of an earlier group is certified before a later group is entered, in every sound log |
| RetryGroups.WalkableShort | core/handler.py:816-820 | a list of at most 500 candidates has such a group unless all share one priority |
| RetryGroups.FirstWalkFacts | core/handler.py:816-883 | the search finds a group that can be walked through, with no BYOK candidate before it, exactly when there is one |
| RetryRuns.StartOn | core/handler.py:755-772 | a request whose first list is the given chain |
| RetryRuns.Walk | core/handler.py:836-883 | the cursor passes skipped candidates one by one and nothing else is done |
| RetryRuns.JumpTo | core/handler.py:857-882 | limited groups are jumped, one attempt each |
| RetryRuns.EdgeBetweenQuestions | core/handler.py:849-876 | a run from the start in which keys recover between two questions: a later group is entered with nobody called, counted, certified or spent, although every attempt would be answered |
| RetryRuns.LeaveUnspent | core/handler.py:816-883 | a run from the start that enters a later group past an unfinished member, for every list with a group that can be walked through |
| RetryRuns.SpentFirstExact | core/handler.py:816-883 | earlier groups are finished before a later one is entered in all surroundings if and only if no group but the last can be walked through within 500 attempts; with at most 500 candidates, if and only if all share one priority |
| PayloadFilter.DeleteRemoves | core/payload_filter.py:118-129 | deleting a path removes it with everything below and nothing else, and reports whether it was there |
| PayloadFilter.PartsAre | core/payload_filter.py:141 | a dotted path stands for its non-empty words, in order |
| PayloadFilter.DeniedMeans | core/payload_filter.py:270-279 | an entry with a dot deletes the path of its non-empty words, one without the top-level key it names unless that is empty or protected |
| PayloadFilter.FilterRemoves | core/payload_filter.py:268-279 | the filtered payload keeps exactly what no deny entry reaches |
| PayloadFilter.OrderIrrelevant | core/payload_filter.py:270-279 | the result is the same for every order of the deny set, nested, overlapping and repeated entries included |
| PayloadFilter.ProtectedSurvives | core/payload_filter.py:270-279 | a protected key that is present survives if and only if no entry is that key with dots around it |
| PayloadFilter.SpineHolds | core/payload_filter.py:151-164 | the copied dictionaries on the path, each hooked into the one above, mean the payload without the path |
| PayloadFilter.Hook | core/payload_filter.py:161-164 | a copy of the next dictionary takes its place in the copy above |
| PayloadFilter.CopyPath | core/payload_filter.py:146-164 | only dictionaries on the path are copied, all of them new |
| PayloadFilter.PopDotPathCow | core/payload_filter.py:133-170 | the result means the payload without the path, the flag whether there was anything, and nothing that existed is written |
| PayloadFilter.Popped | core/payload_filter.py:125-128 | removing an entry of one unshared dictionary is a deletion in the whole |
| PayloadFilter.DeleteInMeans | core/payload_filter.py:117-129 | deletion in an unshared payload means deletion in its tree |
| PayloadFilter.PopDotPath | core/payload_filter.py:108-129 | in-place deletion gives the same tree and flag as copying deletion |
| PayloadFilter.ApplyDeny | core/payload_filter.py:270-279 | all deny entries are deleted, copying and in place, and the payload handed in is not written |
| PayloadFilter.ApplyEntry | core/payload_filter.py:270-279 | one entry is deleted unless it is a protected key |
| PayloadFilter.FilterPayload | core/payload_filter.py:231-281 | the filter in deny, allow and switched-off mode; the payload handed in is never written |

## Left out

- Database, HTTP clients, middleware, OAuth, plugin registry, watchdogs, logging and the frontend: wrappers around I/O.
- `extract_stream_error`, `stream_has_semantic_output`, `json.loads` and decoding are given functions of a `Protocol`; a `choices` value that cannot be iterated, on which `inspect` would raise, is taken as empty.
- StreamErrors.StreamInspector.InspectEvent: a `type` that cannot be hashed, a list or a dictionary, on which the source raises a TypeError, is read as not terminal.
- StreamGuard.GuardStream: `record_stream_failure` appears only as later reports of an error, and a failing source ends with its own error without being recorded again.
- StreamPipeline.WaitForTimeout: cancellation and closing of iterators, and the time spent waiting, are not modelled; a schedule says whether a read was done.
- StreamPipeline.Replay: items are never None, since the readers yield bytes or text; the source drops a first item that is None (`core/stream_pipeline.py:208`).
- StreamPipeline.Serve: the reset of an HTTP/2 client after a broken stream is not modelled.
- StreamUtils.DecodedLines: yields bytes; decoding each line and pausing after 64 KiB are left out.
- ClaudeThinking.Transform: takes the text of each event as already extracted; patched JSON, usage events and tool calls are left out. Lowercasing goes character by character; a capital sigma, which lowercases by its place in the word, becomes one of two letters, neither of them in the tag.
- Scheduling.WeightedRoundRobin: ratios and scaled weights are exact, where the program rounds in floating point.
- Routing.ApplyWeightOrder: the draw of `lottery_scheduling` is arbitrary, so under lottery candidates may be missing, as in the program.
- VirtualRouting.ResolveVirtualModel: configuration values are taken as already read, trimmed and converted.
- AttemptProviders.ModelRequestHandler.MoveCursor: the locks that serialise a cursor are not modelled; a cursor is moved in one step.
- GrowingWindows.MixedLimitsExact: is exact for single limits; for lists the condition of `StaysAlike` is enough but not necessary, because how many requests fit into one window depends on all limits of all lists together.
- KeyPool.ThreadSafeCircularList.Next: the table of sticky sessions and smart reordering are left out; the slot of a live session is a parameter.
- KeyPool.ThreadSafeCircularList.IsRateLimited: empty logs that a default dictionary creates on reading are not distinguished from missing ones, and times are reals.
- RequestRecords.OwnRuleRespected: for limits of at most 1000 requests and windows of at most an hour, which is what the bounded logs can keep; a rule for tokens per request has no window.
- RequestRecords.DefaultRuleRespected: where other rules apply beside the default rule their shorter windows trim entries that the total would count, so the total is claimed only while the default rule decides all of a key's requests.
- The removal of the last record after certain upstream errors (`core/handler.py:1233-1239`) is left out of the runs.
- RetryRuns.SpentFirstExact: speaks of requests on their own route, not of tests that bring their candidates, and of chains without weights, which only reorder the members of a group.
- RetryLoop.RetryRun.Arrange: the shuffle of `random.sample` is an arbitrary rearrangement given by the surroundings.
- RetryLoop.RetryRun.Try: whether an exception is retried, reached the upstream, or cools the channel down is arbitrary; status tables, key rules, delays and interceptors are left out.
- RetryLoop.RetryRun.LeaveVirtualRoute: the defensive filter at `core/handler.py:797` is left out, because the lookup is proved to yield no virtual candidate.
- PayloadFilter.FilterPayload: reading the configuration into mode and sets is left out, and so is the fallback to the payload on an exception.
- `convert_json_to_sse` hands `generate_sse_response` an argument `created` that it does not take (`core/stream_convert.py:221`, `core/response_builders.py:86-104`), so there is no stream to prove a round trip about.
- Session expiry, snapshots on disk and price lookup only read and write stored values, and no other part modelled here depends on them.
