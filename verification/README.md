# Veckomenyn, verified

A Dafny model of the parts of Veckomenyn - a meal planner with a Go server and a React client - where
state, order or arithmetic can go wrong, and proofs of what those parts keep. Run
`dafny verify dfyconfig.toml` in this directory.

The code that works by changing things is modelled that way: handlers and tools as methods of classes
over in-memory tables, the SSE reader and the turn loop as loops over growing buffers, the SET-list
builder with its append-then-reslice. Each method is proved equal to a function of the old state; what
the system promises is then proved about that function, mostly over every run.

| files | what they model |
|---|---|
| Wrappers, Seqs, Decimals | option and result types, facts about sequences, decimal digits |
| Calendar, Dinners, SqlUpdate | dates and the strings they are compared as; `week_dinners` and its reading order; the generated SQL SET list |
| Schedule, ScheduleTheorems, ScheduleRuns, ScheduleContents | creating, patching and cloning plans: the handlers, what is kept, runs, and what is written |
| Utf8, Sse | the SSE printer in Go and the incremental parser in TypeScript |
| Chat | one chat request end to end: turn, event stream, transcript |
| AgentLoop, AgentTheorems, AgentAnswers, Transcript, OpenAI | the agent's turn loop, the client reducer of its events, the flattened OpenAI history |
| PlanTools, PlanToolTheorems, PlanToolEffects, PlanToolbox | the plan-scoped write tools behind their guards: outcomes, what they keep, what each does field by field, the methods |
| Crypto, MasterKey, Providers, ProviderTheorems, ProviderFields | the encryption envelope, the master key over boots, provider settings |
| BackupNames, Backups, BackupSchedule | snapshot file names, pruning, the nightly cadence |
| Willys, WillysConcurrency | the shop login, alone and under concurrent calls |
| Like, Kronor, Toasts | the ILIKE escape, money as text, the toast queue |

## What turned out not to hold

Each of these is kept as the code has it, shown on concrete or arbitrary inputs, and the exact condition
under which the code does what it means to is proved.

- Date strings sort like dates only below year 10000 (`StringOrderFailsAtYear10000`). A default clone can
  pass that year, and then an accepted end patch breaks a plan (`ClonePastYear9999`). The exact condition,
  on the request and the plan alone, is in `EndPatchKeepsTightIff`; `FourDigitPlansHold` gives the
  ordinary case.
- A PATCH that moves the start and also sends an end compares that end with the old end. Moving both dates
  one day later is accepted and books the last day twice (`DayLaterDoubleBooks`); `BothDatesTightIff` says
  exactly when a PATCH of both dates keeps one row per day, of whatever year the old end is, and
  `ShiftAcceptedIff` exactly when it is accepted. The comment at internal/server/weeks.go:280-283
  promises a shift by a delta; the code packs the dinners onto consecutive days from the new start, and the
  model follows the code. Over runs, plans and their clones have one row per day throughout exactly when no
  request breaks one of them in one of these two ways (`StaysTightIff`).
- Moving a plan to `a` and then to `b` is moving it to `b`, except when `b` is the original start
  (`StartMovesCompose`).
- A tool card gets its result only if the call has an id and the result is not empty (`CardPerCall`).
- Any agent can reopen a locked plan, as update_week has no draft guard (`AgentCanReopen`). A call does
  so exactly when it is an accepted update_week of that plan with status draft (`UnlocksIff`), and a plan
  stays locked throughout a run exactly when no call of the run is one (`StaysLockedIff`).
- Echoing a mask is harmless exactly when every secret is a string, nothing is empty and no secret opens
  twice (`EchoIff`). Echoing the mask of an earlier process overwrites the secret (`OldMaskOverwrites`); it is
  harmless exactly when, besides, every secret already is that mask (`StaleEchoIff`).
- A password that is an envelope around nothing ends up stored as the empty string
  (`EnvelopeAroundNothing`). Over a run of patches secrets stay at rest exactly when no patch sends an
  empty string inside envelopes for a secret (`RunsAtRestIff`).
- The nightly cadence counts what it recorded, not what is on disk. A warm scheduler dumps exactly when a
  day has passed since the last recorded dump (`WarmTickIff`), so a dump that left a file but could not be
  stat'ed, or failed without the file being removed, is followed by another a minute later
  (`UncountedDumpRepeats`). A scheduler just started does see that file: it dumps exactly when it sees no
  nightly younger than a day (`ColdTickIff`), and so forgets one that was deleted by hand. The nightly
  files are a day apart throughout a run exactly when no due tick of a warm scheduler leaves a file beside
  one that is newer than the recorded dump and younger than a day, both outlasting the prune that may follow
  (`NightlyFilesADayApart`); without uncounted dumps that never happens (`CleanRunsApart`).
- A gated shop call that has passed requireAuth can have its session cleared before it is sent, by a call
  that finds other credentials configured (`OutrunAfterGate`); `FlagFallsIff` has exactly when a flag falls.
- AddToCart can post its product twice. It reads the cart after its POST, and if that fails like an
  authentication the provider logs in and runs all of it again. In the everyday case the shop answers
  the cart request with 401 although nothing else changed, and the product is posted to the same account
  twice (`CartRefusedPostsTwice`). The other case is a change of credentials between the POST and the second
  requireAuth: the second POST goes to the other account (`PostedTwice`, `PostedTwiceArises`). Those two
  steps are the only ones that send the call round after a POST (`ResendsIff`). Over all interleavings a call
  has posted twice exactly when one of them was taken and a later POST accepted (`PostedTwiceIff`), and
  otherwise at most once (`PostsOnce`).
- Amounts lose their sign on the way through `formatKronor` and `parseKronor` (`FormatParsesBack`).

## Model

| member | source | states |
|---|---|---|
| Calendar.ParseText | internal/server/weeks.go:316-316 | every date a client can send reads back from how Postgres prints it |
| Calendar.TextOfParsed | internal/server/weeks.go:298-305 | every accepted date string is printed back unchanged and has a four-digit year |
| Calendar.TextDistinct | internal/server/weeks.go:328-328 | a sent string equals a stored date's text exactly when it denotes that date |
| Calendar.StringOrderIsCalendarOrder | internal/server/weeks.go:373-385 | comparing YYYY-MM-DD strings decides calendar order, for all dates of years 1 to 9999 |
| Calendar.StringOrderFailsAtYear10000 | internal/server/weeks.go:373-385 | every date of year 10000 sorts before 9999-12-31 |
| Calendar.TextInjective | internal/server/weeks.go:316-316 | no two days, of any year, print alike |
| Calendar.KnownDates | internal/server/weeks.go:316-316 | the first day, the Unix epoch and which centuries leap |
| SqlUpdate.CalendarOrdersDates | internal/server/weeks.go:373-385 | a Postgres with the Gregorian calendar meets what the schedule proofs assume of date strings: round trip, distinctness and order, the last only below year 10000 |
| SqlUpdate.CalendricalExists | internal/server/weeks.go:373-385 | the assumptions on how Postgres reads and prints dates can be met, with any labels for weeks |
| SqlUpdate.Builder.Add | internal/store/weeks.go:39-42 | appending a column keeps: placeholders are 1 to the number of arguments, each once, and running the list grants the wishes so far |
| SqlUpdate.Builder.AddDate | internal/store/weeks.go:43-57 | the same for a date field, nil skipped and "" set to NULL, despite the argument appended and taken back |
| SqlUpdate.Builder.AddIf | internal/store/weeks.go:59-71 | the same for an optional field |
| SqlUpdate.BuildWeekUpdate | internal/store/weeks.go:34-76 | the list is empty exactly when no field is set; otherwise placeholders 1..n are used once each and the last argument is the id; on every row it does what was wished |
| SqlUpdate.WishesUpdateRow | internal/store/weeks.go:59-71 | an accepted update's wishes are the field-by-field update of the week: nil untouched, "" NULL |
| SqlUpdate.CastsDecide | internal/store/weeks.go:43-57 | the statement fails on a date cast exactly when some sent date does not cast |
| SqlUpdate.ForbiddenRow | internal/store/weeks.go:59-81 | with all casts good, a refused update is one that would break a NOT NULL or status constraint |
| SqlUpdate.UpdateWeek | internal/store/weeks.go:34-82 | the generated statement equals the field-by-field partial update of the addressed row, with row count and errors |
| SqlUpdate.WeekRefusedIff | internal/store/weeks.go:34-82 | the statement fails exactly when a sent date does not cast, or the row is there and a bound is cleared or the status is none of the three; one row is affected exactly when it is there and something is set |
| SqlUpdate.WeekAsSent | internal/store/weeks.go:34-82 | each field afterwards: as it was if not sent, none for an empty delivery or order date, else as sent; no other row changes |
| SqlUpdate.UpdateHouseholdSettings | internal/store/weeks.go:117-153 | the statement does the field-by-field partial update of the settings row, or fails and changes nothing when a CHECK or the column width forbids it |
| SqlUpdate.SettingsAllowedIff | internal/migrations/00003_household_settings.sql:7-17 | the updated row meets the table's constraints exactly when every field that is set does |
| SqlUpdate.SettingsAllowedAre | internal/migrations/00003_household_settings.sql:7-17 | the values the columns let through |
| SqlUpdate.SettingsWishesUpdateRow | internal/store/weeks.go:122-146 | the settings statement overwrites exactly the fields that are set |
| Dinners.RankIsPlace | internal/server/weeks.go:335-343 | row_number() over (day_date, sort_order, id) is a row's place in the reading order |
| Dinners.MenuUnique | internal/server/weeks.go:335-343 | a plan has one reading order only |
| Dinners.MenuInOrder | internal/server/weeks.go:335-343 | the reading order lists each row of the plan once, by day, then sort_order, then id |
| Schedule.Database.HandlePatchWeek | internal/server/weeks.go:288-434 | the whole new state and status of a PATCH: shift, slide, truncate, extend, update, or nothing on an error |
| Schedule.Database.ResizeEnd | internal/server/weeks.go:372-397 | what the end comparison does to the rows: refuse, delete past the new end, or add one empty row per new day |
| Schedule.Database.CopyDinners | internal/server/weeks.go:648-658 | copying row by row in reading order gives the packed copies |
| Schedule.Database.CloneInto | internal/server/weeks.go:621-675 | the clone transaction's whole new state |
| Schedule.Database.HandleCloneWeek | internal/server/weeks.go:593-694 | the whole new state and status of a clone, all-or-nothing |
| Schedule.Database.HandleCreateWeek | internal/server/weeks.go:230-263 | the whole new state and status of a create |
| ScheduleTheorems.PackedMenu | internal/server/weeks.go:334-343 | packing puts the k-th dinner on the k-th day, changes nothing else of it and keeps the order |
| ScheduleTheorems.PackedTwice | internal/server/weeks.go:334-343 | packing twice is packing once, to the last start |
| ScheduleTheorems.PatchFrame | internal/server/weeks.go:288-418 | a refused PATCH changes nothing; an accepted one touches its own plan only |
| ScheduleTheorems.PatchAcceptedIff | internal/server/weeks.go:288-418 | a PATCH that leaves the start alone is accepted exactly when its dates cast and it passes the string comparison and the constraints |
| ScheduleTheorems.EndPatchKeepsTightIff | internal/server/weeks.go:372-397 | a PATCH that leaves the start alone keeps one dinner row per day exactly when it is not accepted on a misread string comparison, as judged from the request and the plan before |
| ScheduleTheorems.StartPatchKeepsDinners | internal/server/weeks.go:326-370 | moving the start loses or alters no dinner except its day, keeps reading order and duration |
| ScheduleTheorems.StartPatchKeepsTight | internal/server/weeks.go:326-370 | moving the start keeps one row per day |
| ScheduleTheorems.StartMovesCompose | internal/server/weeks.go:326-370 | moving to a and then b equals moving to b, with the exact exception |
| ScheduleTheorems.ExtendThenShrink | internal/server/weeks.go:372-397 | extending the end and shrinking it back restores the tables exactly when the plan had no rows past its end |
| ScheduleTheorems.BothDatesTightIff | internal/server/weeks.go:326-397 | a PATCH that moves the start and sends an end keeps one row per day exactly when, if accepted, start <= sent end < old end and the sent end is within the moved plan - or is its very last day, when the old end is misread; judged from request and plan |
| ScheduleTheorems.ShiftAcceptedIff | internal/server/weeks.go:288-434 | a PATCH that moves the start is accepted exactly when its dates look like dates, the start casts and the update filled in for the shift passes the comparison and the constraints |
| ScheduleTheorems.DayLaterDoubleBooks | internal/server/weeks.go:326-397 | moving both dates one day later is accepted and leaves two dinners on the last day |
| ScheduleRuns.CloneRows | internal/server/weeks.go:643-675 | a clone of d days and n dinners has max(n, d) rows on consecutive days, the first n with the source's payloads in order, the rest empty |
| ScheduleRuns.CloneFrame | internal/server/weeks.go:621-675 | the clone is a new draft of equal duration and no other plan or row changes |
| ScheduleRuns.CloneTight | internal/server/weeks.go:643-675 | the clone of a plan with one row per day has one row per day |
| ScheduleRuns.PatchKeepsTightIff | internal/server/weeks.go:288-418 | every PATCH: one row per day is kept exactly when the request does not break the plan |
| ScheduleRuns.RunKeepsOneRowPerDay | internal/server/weeks.go:288-418 | over every run of creates, clones and accepted or refused patches that breaks none of them, one row per day is kept for each plan that had it and for every clone of one |
| ScheduleRuns.StaysTightIff | internal/server/weeks.go:288-418 | after every prefix of a run these plans and their clones have one row per day exactly when no request of the run breaks one of them |
| ScheduleRuns.Serve | internal/server/weeks.go:288-434 | each request is one step of the run, in tables that stay well formed |
| ScheduleRuns.ServeAll | internal/server/weeks.go:288-434 | the handlers called one after the other give the run, and so keep one row per day for those plans and their clones |
| ScheduleRuns.FourDigitPlansHold | internal/server/weeks.go:372-397 | a patch of at most one date does not break a plan that ends before year 10000 |
| ScheduleRuns.ClonePastYear9999 | internal/server/weeks.go:622-633 | past year 9999 a clone and then a patch of its end break one row per day |
| ScheduleContents.CreatedAsSent | internal/server/weeks.go:230-263 | when a create is accepted, and its one new plan: dates and notes as sent, the label of its start, a draft, no delivery or order date, no dinners |
| ScheduleContents.ClonedAsSent | internal/server/weeks.go:593-641 | when a clone is accepted, and its new plan: start as sent or a week on, the source's duration, the label of its own start, a draft, no delivery or order date and no notes whatever the source has |
| ScheduleContents.TwinsCloneAlike | internal/server/weeks.go:621-675 | sources that agree on bounds and menu clone to the same plan row and dinner rows |
| ScheduleContents.AddedDaysAreEmpty | internal/server/weeks.go:386-397 | a day added by an extension or a clone's padding is one row with the column defaults and no dish |
| ScheduleContents.PatchAnswers | internal/server/weeks.go:288-434 | when a PATCH is answered 400 or 404 |
| ScheduleContents.PatchedAsSent | internal/server/weeks.go:288-418 | each field of the plan after an accepted PATCH; a moved start brings the end and the label along unless they are sent |
| ScheduleContents.RunKeepsLabels | internal/server/weeks.go:288-418 | over every run whose patches name no wrong label, plans keep the label of their start and every plan made on the way has it |
| Utf8.DecodeInParts | web/src/lib/api.ts:574-581 | a streaming decoder may be fed in parts cut anywhere, inside a character too |
| Utf8.RoundTrip | web/src/lib/api.ts:574-581 | decoding undoes encoding and leaves nothing pending |
| Utf8.EncodedAsInRFC3629 | internal/server/chat.go:203-207 | characters at each length and boundary have the bytes of section 3 of RFC 3629 |
| Sse.ResponseWriter.SendSSE | internal/server/chat.go:203-207 | exactly one event frame is appended to the response |
| Sse.ResponseWriter.SendAll | internal/server/chat.go:203-207 | a list of events is appended frame by frame |
| Sse.ChatStream.ReadChunks | web/src/lib/api.ts:574-598 | the reading loop over all chunks leaves what reading them in turn gives: decoder, buffer and everything handed over |
| Sse.ChatStream.Read | web/src/lib/api.ts:578-598 | one read decodes the chunk, hands over every complete frame and keeps the rest |
| Sse.ChatStream.Drain | web/src/lib/api.ts:583-597 | the frame loop hands over the frames of the buffer in order and leaves what follows the last blank line |
| Sse.ChatStream.HandOver | web/src/lib/api.ts:588-596 | one frame reaches the handler of its event, or none; a handler that throws is caught and reported |
| Sse.ChatStream.ParseFrame | web/src/lib/api.ts:601-614 | the line loop finds the last event name and the joined data lines |
| Sse.JoinSplit | web/src/lib/api.ts:601-614 | splitting a frame into lines and joining them gives the frame back, and no line holds a break |
| Sse.LastEventWins | web/src/lib/api.ts:601-605 | the event is what the last event line names, stripped; message if none does |
| Sse.TrimStrips | web/src/lib/api.ts:605-605 | white space goes at both ends of the name, and only there |
| Sse.DataOfLine | web/src/lib/api.ts:606-606 | the k-th data line gives the k-th piece of data, other lines none |
| Sse.FramesInParts | web/src/lib/api.ts:578-598 | frames of a text are those of its first part, then those of the leftover and the rest |
| Sse.ChunkingIrrelevant | web/src/lib/api.ts:578-598 | what is handed over depends only on the concatenated bytes |
| Sse.PrintedFrame | internal/server/chat.go:203-207 | a printed event at the head of a stream is one frame that parses back to it |
| Sse.StreamRoundTrip | web/src/lib/api.ts:574-614 | for every list of events and every way to cut the bytes, the client gets exactly those events in order |
| Sse.Receive | web/src/lib/api.ts:574-614 | server to client end to end: handlers get exactly the events sent, and exactly those that throw are reported |
| Sse.BrokenStream | web/src/lib/api.ts:578-598 | a stream cut off anywhere has delivered a prefix of the events |
| AgentLoop.ChatTurn.CallTool | internal/agent/agent.go:274-286 | the first tool of that name answers; an unknown name is an error |
| AgentLoop.ChatTurn.RunBlock | internal/agent/agent.go:173-196 | one block: nothing unless it is a tool call, else its two events and its result |
| AgentLoop.ChatTurn.RunTools | internal/agent/agent.go:172-197 | one call event, one result event and one result block per tool_use, in order |
| AgentLoop.ChatTurn.RunRound | internal/agent/agent.go:146-209 | one pass of the loop: events, history and how it ends |
| AgentLoop.ChatTurn.Run | internal/agent/agent.go:130-213 | the whole turn, for any provider and tools; the buffered text is the text of the events |
| AgentTheorems.EveryRequestAnswersItsCalls | internal/agent/agent.go:146-209 | in every request of a turn each tool_use is answered once, in order and by id, in the next user message, and no other result appears |
| AgentTheorems.RequestsBounded | internal/agent/agent.go:146-166 | at most one request per remaining iteration, each strictly extending the one before |
| AgentTheorems.TurnEndsOnce | internal/agent/agent.go:138-213 | exactly one terminal event, the last; done exactly when no error; at most MaxIters requests |
| AgentTheorems.LoadHistory | internal/server/chat.go:105-138 | only text of user and assistant rows that is not blank is replayed, in order |
| AgentTheorems.ReplayedIff | internal/server/chat.go:105-138 | a stored row is replayed in its place, with its role and text, exactly when it is a user's or assistant's and not blank |
| AgentAnswers.EveryCallGetsItsAnswer | internal/agent/agent.go:172-209 | in every request of a turn the user message after an assistant message with calls holds exactly the answers of the tools, in order: own id, text or error, flag, or that there is no such tool |
| AgentAnswers.KthAnswer | internal/agent/agent.go:172-197 | the k-th result is what the tool gives for the k-th call's name and input as call number n of the turn |
| AgentAnswers.RoundReports | internal/agent/agent.go:146-209 | the events of a round: the stream's, then per call what was called and what it gave, then at most one that ends the turn |
| AgentAnswers.StreamReported | internal/agent/agent.go:154-164 | one event per text delta and per announced call, in order and with their content |
| AgentAnswers.ModelAndUserToldTheSame | internal/agent/agent.go:172-209 | the results in each request are the first of those in the turn's events, same id, text and flag |
| AgentAnswers.TurnSays | internal/server/chat.go:70-96 | the text buffered for saving is all text streamed in answer to the turn's requests, in order |
| AgentAnswers.TurnRunsAndEnds | internal/agent/agent.go:130-213 | which replies keep the turn going, what each adds to the history, and how the last one ends it |
| Transcript.Drawer.ApplyAgentEvent | web/src/components/ChatDrawer.tsx:298-351 | the reducer's new entries, open bubble and id map |
| Transcript.CardPerCall | web/src/components/ChatDrawer.tsx:318-341 | the k-th card of a round shows the k-th call, with that call's own result and error flag exactly when it has an id and a result that is not empty |
| Transcript.ErrorShownLast | web/src/components/ChatDrawer.tsx:342-344 | a turn that ends in an error shows its text last |
| Transcript.TurnShown | web/src/components/ChatDrawer.tsx:298-351 | a turn leaves all earlier entries as they were and adds, per round, one bubble and one card per call, then an error if there is one |
| Transcript.ShownIsSaved | internal/server/chat.go:70-96 | the assistant text shown is the text the server saves |
| Chat.HandleChat | internal/server/chat.go:61-98 | the response is meta, the turn's events, a cancellation if the turn failed with the client gone, and end; the text of the events is saved unless empty |
| Chat.App.Deliver | web/src/App.tsx:242-301 | each delivery in order: events go to the transcript, meta to the conversation, end nowhere |
| Chat.App.Send | web/src/App.tsx:272-316 | the transcript gets the user's message, what the chunks brought, and an entry if reading was aborted or failed |
| Chat.Converse | internal/server/chat.go:61-98 | for any provider, tools and history and any cut of the response, the transcript ends in the user's message and what the turn shows, and the text saved is the assistant text added |
| Chat.ChatShown | web/src/App.tsx:272-316 | the same about the deliveries read from any cut of the response |
| Chat.BrokenChatShown | web/src/lib/api.ts:578-598 | a response cut off anywhere has shown the first of the request's events and nothing else |
| OpenAI.ToOpenAIMessages | internal/llm/openai.go:104-163 | the joined system message, then the flattened history in order |
| OpenAI.FlattenMessage | internal/llm/openai.go:118-160 | what one message flattens to |
| OpenAI.UserMsgOfBlock | internal/llm/openai.go:118-135 | each text block becomes a user message and each result a tool message with its own text and id, in order |
| OpenAI.SaidInParts | internal/llm/openai.go:136-152 | an assistant message's text is that of its text blocks in order |
| OpenAI.FromOpenAIMessage | internal/llm/openai.go:191-210 | the first choice as blocks: text if any, then calls |
| OpenAI.JoinedByBlankLines | internal/llm/openai.go:104-117 | system blocks are joined by blank lines, in order |
| OpenAI.CallOfBlock | internal/llm/openai.go:136-152 | each tool_use block becomes the call with its own id, name and arguments, in order |
| OpenAI.BlockOfCall | internal/llm/openai.go:191-210 | each call read becomes the block with its own id, name and arguments |
| OpenAI.CompletionRoundTrip | internal/llm/openai.go:191-210 | flattening a message read from a completion gives back the same text and calls |
| OpenAI.CallsFollowedByResults | internal/llm/openai.go:118-160 | in a history that keeps the protocol, an assistant message is followed by exactly its tool messages in call order, with matching ids and texts |
| OpenAI.TurnRequestsFlatten | internal/llm/openai.go:104-163 | this holds of every request of every turn |
| PlanToolbox.Toolbox.CallUpdatePlan | internal/agent/tools.go:598-666 | new state and success of update_week, the SET list included |
| PlanToolbox.Toolbox.CallRecordRetrospective | internal/agent/tools.go:1014-1094 | new state and success of record_retrospective, one transaction |
| PlanToolbox.Toolbox.CallCartAddMany | internal/agent/tools.go:1200-1282 | the cart rows inserted for the items the shop took, in order |
| PlanToolbox.Toolbox.Call | internal/agent/tools.go:559-1333 | any tool call is its step: a failed one changes nothing, and in a bound chat everything BoundCall names is kept |
| PlanToolbox.Toolbox.CallEach | internal/agent/wkctx.go:55-94 | the calls of a chat, one after the other, are a run and leave other plans' rows alone |
| PlanToolTheorems.BoundCall | internal/agent/wkctx.go:55-131 | one call in a chat bound to p: other plans' rows stay, dishes only grow, dinners and exceptions change only while p is a draft, and a failed call changes nothing |
| PlanToolTheorems.RunStaysInPlan | internal/agent/wkctx.go:55-94 | over every run, no existing row of another plan changes |
| PlanToolTheorems.UnlocksIff | internal/agent/tools.go:609-666 | a call unlocks a locked plan exactly when it is an update_week that resolves to that plan, sets draft, and is not refused |
| PlanToolTheorems.StaysLockedIff | internal/agent/tools.go:609-666 | a plan is locked after every prefix of a run exactly when no call of the run reopens it |
| PlanToolTheorems.LockedMenuSurvives | internal/agent/wkctx.go:96-131 | a locked plan's dinners and exceptions survive every run in which no call reopens it |
| PlanToolTheorems.AgentCanReopen | internal/agent/tools.go:641-656 | two calls reopen a locked plan and delete a dinner of it |
| PlanToolTheorems.AddThenDeleteDinner | internal/agent/tools.go:881-909 | deleting the dinner just added restores every table but the dishes, which keep the new dish |
| PlanToolTheorems.AddThenDeleteException | internal/agent/tools.go:988-1012 | deleting the exception just added restores every table |
| PlanToolTheorems.UpdateDinnerKeepsOrder | internal/agent/tools.go:833-875 | replacing a dish changes no day, no plan and no reading order |
| PlanToolTheorems.AddThenRemoveIff | internal/agent/tools.go:1284-1313 | removing the product just added restores the cart rows exactly when it was not listed before |
| PlanToolEffects.CreatedAsAsked | internal/agent/tools.go:576-595 | when create_week succeeds, and the one draft it makes |
| PlanToolEffects.ReplannedAsAsked | internal/agent/tools.go:615-664 | when update_week of the plan it is about succeeds, and that it changes that plan only, as sent |
| PlanToolEffects.NotReplanned | internal/agent/tools.go:615-664 | an update_week that is about no plan changes nothing; it is no error only for a label that finds none |
| PlanToolEffects.AddedAsAsked | internal/agent/tools.go:742-803 | when add_dinner succeeds, and its one dish and one dinner: everything as asked for or by default |
| PlanToolEffects.NothingAdded | internal/agent/wkctx.go:55-94 | additions to no plan or another one fail and change nothing |
| PlanToolEffects.UpdatedAsAsked | internal/agent/tools.go:819-878 | when update_dinner succeeds: one new dish as asked for, the dinner pointing at it in its own day, plan and place, every other row as it was |
| PlanToolEffects.DinnerDeletedAsAsked | internal/agent/tools.go:889-908 | when delete_dinner succeeds, and that the dinner and its rating go |
| PlanToolEffects.ExceptionAddedAsAsked | internal/agent/tools.go:921-946 | when add_exception succeeds, and the row it makes |
| PlanToolEffects.ExceptionUpdatedAsAsked | internal/agent/tools.go:959-985 | when update_exception succeeds, what it sets and what stays |
| PlanToolEffects.ExceptionDeletedAsAsked | internal/agent/tools.go:996-1011 | when delete_exception succeeds, and that the row goes |
| PlanToolEffects.RecordedAsAsked | internal/agent/tools.go:1038-1093 | when record_retrospective succeeds, its note, and each dinner's last rating given |
| PlanToolEffects.CartAddedAsAsked | internal/agent/tools.go:1157-1198 | when cart_add succeeds, when it keeps a row, and what that holds |
| PlanToolEffects.CartFilledAsAsked | internal/agent/tools.go:1200-1282 | when cart_add_many succeeds, and the rows it keeps, in order |
| PlanToolEffects.CartRemovedAsAsked | internal/agent/tools.go:1284-1333 | when cart_remove and cart_clear succeed, and exactly which rows go |
| Crypto.EnvelopeOpens | internal/providers/crypto.go:58-84 | an envelope carries the prefix and opens to what was sealed |
| Crypto.EnvelopeLockedToKey | internal/providers/crypto.go:67-84 | it does not open under any other key |
| Crypto.DecryptShrinks | internal/providers/crypto.go:67-84 | what opens is longer than what it opens to |
| Crypto.StringRoundTripIff | internal/providers/providers.go:219-234 | a string survives EncryptString and DecryptString exactly when it did not look encrypted |
| Crypto.LawfulCipherExists | internal/providers/crypto.go:58-84 | the laws assumed of the cipher can be met |
| MasterKey.SystemSecrets.LoadOrGenerateMasterKey | internal/providers/master_key.go:59-121 | one boot: what it returns, what it stores, and exactly when it fails |
| MasterKey.SystemSecrets.Insert | internal/providers/master_key.go:59-121 | a stored key is never overwritten by an insert |
| MasterKey.StepAgrees | internal/providers/master_key.go:59-121 | one database round trip of one boot keeps: booted processes have the stored key |
| MasterKey.EnvKeyIsUsed | internal/providers/master_key.go:29-42 | a boot with a key in its environment finishes with that key or refuses, one without takes the stored key or a new one, and exactly when |
| MasterKey.OneKeyForever | internal/providers/master_key.go:29-42 | over every run of boots, also overlapping, with any environment: the stored key never changes and every successful boot has it |
| MasterKey.SecretsSurviveBoots | internal/providers/providers.go:219-234 | a value encrypted in one successful boot decrypts to itself in any other exactly when it did not look encrypted |
| Providers.Store.DecryptSecrets | internal/providers/providers.go:285-305 | the field loop opens exactly the password fields that open |
| Providers.Store.EncryptSecrets | internal/providers/providers.go:309-330 | the field loop wraps exactly the plaintext password fields, failing exactly when randomness does |
| Providers.Store.Get | internal/providers/providers.go:262-280 | a row as read, its secrets opened |
| Providers.Store.Mask | internal/providers/providers.go:151-167 | every secret becomes the sentinel or the empty string, nothing else changes |
| Providers.Store.MergePatch | internal/providers/providers.go:356-367 | the merge does not depend on the order the map is visited in |
| Providers.Store.Upsert | internal/providers/providers.go:339-386 | the row written, or no change and an error |
| ProviderFields.CredentialsAreSecret | internal/providers/providers.go:64-126 | exactly api_key of the model providers and the shop's password are encrypted; masked are those and unlisted keys of four names |
| ProviderFields.CredentialIsSealed | internal/providers/providers.go:309-386 | a credential sent is stored as an envelope that opens to it, and shown as the mask |
| ProviderFields.CredentialWithoutKey | internal/providers/providers.go:309-386 | without a master key it is stored as sent and masked all the same |
| ProviderFields.SettingAsSent | internal/providers/providers.go:309-386 | model, base_url and username are stored, read back and shown as sent |
| ProviderFields.ClearedAndSwitched | internal/providers/providers.go:339-386 | an empty string deletes a key, and a row is switched on or off as sent or stays |
| ProviderTheorems.ValueRoundTripIff | internal/providers/providers.go:285-330 | a value comes back from the row exactly when it is not itself an envelope that opens |
| ProviderTheorems.EchoIff | internal/providers/providers.go:151-167 | echoing the mask leaves the decrypted config unchanged exactly under the condition given |
| ProviderTheorems.OldMaskOverwrites | internal/providers/providers.go:356-367 | the mask of an earlier process overwrites the secret |
| ProviderTheorems.StaleEchoIff | internal/providers/providers.go:356-367 | echoing the mask of an earlier process leaves the decrypted config unchanged exactly when every entry is safe and every secret is that mask |
| ProviderTheorems.RunsStayAtRest | internal/providers/providers.go:339-386 | over every run of patches no empty string is stored and every string password is wrapped |
| ProviderTheorems.AtRestAfterIff | internal/providers/providers.go:339-386 | a served patch keeps secrets at rest exactly when it is honest: nothing empty inside envelopes in a secret field |
| ProviderTheorems.RunsAtRestIff | internal/providers/providers.go:339-386 | secrets are at rest after every prefix of a run of served patches exactly when all of them are honest |
| ProviderTheorems.EnvelopeAroundNothing | internal/providers/providers.go:285-330 | without the condition on patches the empty string does get stored, after finitely many empty patches |
| ProviderTheorems.UndecryptableKeptIff | internal/providers/providers.go:297-304 | a secret under a lost key survives a patch exactly when the patch does not replace it |
| ProviderTheorems.UndecryptableSurvives | internal/providers/providers.go:297-304 | and so over every run of such patches |
| BackupNames.SanitizeLabel | internal/backup/snapshot.go:192-207 | only a-z, 0-9, - and . remain, never empty, clean labels unchanged |
| BackupNames.NamedAsOnDisk | internal/backup/snapshot.go:77-82 | the shape of the file names of the three reasons |
| BackupNames.ParseWhatSnapshotWrites | internal/backup/snapshot.go:209-220 | reason and sanitized label are recovered from every name Snapshot writes |
| BackupNames.NamesDistinct | internal/backup/snapshot.go:77-82 | two snapshots share a file exactly when stamp, reason and label agree |
| Backups.Directory.List | internal/backup/snapshot.go:125-153 | every .dump file whose Info could be read, once, newest first; an error exactly when the directory cannot be read |
| Backups.Directory.Prune | internal/backup/snapshot.go:157-182 | what was removed: the files past the keep newest, up to the first that resists |
| Backups.Directory.Snapshot | internal/backup/snapshot.go:72-122 | which files a dump leaves, for each way it can end |
| Backups.PruneKeepsNewest | internal/backup/snapshot.go:157-182 | a completed prune leaves exactly min(keep, n) files of the reason, all at least as new as those removed |
| Backups.PruneRanKeepsNewest | internal/backup/snapshot.go:157-182 | a prune that sees all and is stopped by nothing leaves exactly min(keep, n) files, none older than one removed |
| Backups.PruneStopsAtStuck | internal/backup/snapshot.go:157-182 | if more than keep are left, a file that could not be removed is among them, no newer than any removed |
| Backups.DumpLeaves | internal/backup/snapshot.go:72-122 | per way a dump can end: the file left or not, and that no other changes |
| BackupSchedule.Scheduler.RunTick | internal/backup/scheduler.go:52-99 | one tick: whether it dumps, what it records, and what exactly its prune removes |
| BackupSchedule.Scheduler.Bootstrap | internal/backup/scheduler.go:70-78 | lastAt becomes the newest nightly on disk |
| BackupSchedule.NightliesADayApart | internal/backup/scheduler.go:52-99 | over every run of ticks, restarts and other uses of the directory, successful nightlies are 24h apart and the last is on disk |
| BackupSchedule.OtherSnapshots | internal/backup/snapshot.go:72-122 | snapshots of other reasons leave the nightlies alone |
| BackupSchedule.OtherPrunes | internal/backup/snapshot.go:157-182 | prunes of other reasons leave the nightlies alone |
| BackupSchedule.ColdTickIff | internal/backup/scheduler.go:67-83 | after a restart a tick dumps exactly when it sees no nightly younger than a day; an unreadable directory shows none |
| BackupSchedule.OffDoesNothing | internal/backup/scheduler.go:52-60 | an unreadable config or nightlies turned off: nothing happens |
| BackupSchedule.TickPrunes | internal/backup/scheduler.go:85-99 | after a dump that counts and a complete prune exactly min(keep, n) nightlies are left, the newest, the new one among them |
| BackupSchedule.NeverMoreThanKept | internal/backup/scheduler.go:52-99 | over every run with complete prunes there are at most keep nightlies from the first dump on |
| BackupSchedule.WarmTickIff | internal/backup/scheduler.go:62-66 | a later tick dumps exactly when a day has passed since the recorded dump, whatever is on disk |
| BackupSchedule.UncountedDumpRepeats | internal/backup/snapshot.go:95-104 | a dump that leaves a file but reports failure is repeated: two nightly files a minute apart, unless the prune has no room for both |
| BackupSchedule.TickKeepsApartIff | internal/backup/scheduler.go:52-99 | one tick keeps the nightly files a day apart exactly when it is not a due warm tick that leaves its file beside one newer than the recorded dump and younger than a day |
| BackupSchedule.NightlyFilesADayApart | internal/backup/scheduler.go:52-99 | over every run of ticks, restarts and other uses of the directory: any two nightly files are a day apart throughout, unless both were there before, exactly when no tick crowds them |
| BackupSchedule.CleanRunsApart | internal/backup/scheduler.go:52-99 | over every run in which each dump that leaves a file counts, any two nightly files are a day apart, unless both were there before |
| Willys.Client.Login | internal/willys/client.go:266-334 | exactly when a login succeeds, is rejected or is broken off, and the client state after each |
| Willys.LoginOutcomeIff | internal/willys/client.go:266-334 | exactly when a login succeeds and is rejected, answer by answer: no guest is accepted |
| Willys.Client.GetCustomer | internal/willys/client.go:357-368 | when a customer is returned, and that cookies are kept even when it is not |
| Willys.Client.FollowUp | internal/willys/client.go:307-322 | when the steps after an accepted login POST all succeed, and the cookies and token they leave |
| Willys.Client.ClearState | internal/willys/client.go:109-118 | cookies, token, flag and stored session are gone |
| Willys.Client.constructor | internal/willys/client.go:45-73 | a restored session does not count as logged in |
| Willys.WillysProvider.EnsureLoggedIn | internal/shopping/willys.go:45-67 | when a login is tried, the state it leaves, and that the flag stays matched to the remembered credentials |
| Willys.WillysProvider.Attempt | internal/shopping/willys.go:71-87 | when ensureLoggedIn lets fn start, with which cookies, and that it starts logged in with the configured credentials |
| Willys.WillysProvider.WithAuth | internal/shopping/willys.go:71-87 | fn runs never, once or twice, each decided from the state and the answers: a second run exactly when the first fails like an authentication and the forced login on the cookies it left succeeds |
| Willys.AuthErrorByWord | internal/shopping/willys.go:91-104 | errors by type or with 401, 403, unauthorized or forbidden in their text lead to a retry |
| Willys.WordOfAuthError | internal/shopping/willys.go:91-104 | and no other text does |
| WillysConcurrency.FlagMatchesCreds | internal/shopping/willys.go:45-67 | over all interleavings: with the mutex free, an authenticated flag means the last successful login used the remembered credentials |
| WillysConcurrency.GateNeedsFlag | internal/willys/client.go:120-129 | no gated call gets past requireAuth with the flag down, neither at its start nor when AddToCart reads the cart again |
| WillysConcurrency.TwoRunsAtMost | internal/shopping/willys.go:71-87 | each call runs fn at most twice, the second time directly after its forced login succeeded, and posts at most once per run |
| WillysConcurrency.StepKeepsInv | internal/shopping/willys.go:45-87 | every single step of any call, or settings change, keeps the invariant |
| WillysConcurrency.Uninterrupted | internal/shopping/willys.go:45-67 | the interleaved steps, taken together, are the provider's method |
| WillysConcurrency.FlagFallsIff | internal/willys/client.go:109-118 | the flag falls exactly on changed credentials or a rejected login |
| WillysConcurrency.OutrunAfterGate | internal/willys/client.go:120-129 | a call past requireAuth can have its session taken away |
| WillysConcurrency.RereadRefusedIff | internal/willys/client.go:441-494 | the second gate of AddToCart refuses exactly when the flag is down, and the first refusal sends the call to another login |
| WillysConcurrency.PostedTwice | internal/willys/client.go:465-494 | credentials changed between the POST and the second gate lead to a second POST, on the other account |
| WillysConcurrency.PostedTwiceArises | internal/willys/client.go:465-494 | two calls and a settings change reach that state from a fresh start |
| WillysConcurrency.CartRefusedPostsTwice | internal/willys/client.go:441-494 | a cart request answered 401 or 403 leads to a second POST on the same account, with nothing else changed |
| WillysConcurrency.ResendsIff | internal/willys/client.go:441-494 | after its POST a call goes round again exactly when the second gate finds the flag down or the shop refuses the cart |
| WillysConcurrency.PostedTwiceIff | internal/shopping/willys.go:71-104 | over all interleavings: a call has posted twice exactly when it was sent round after an accepted POST and a later POST of it was accepted, and otherwise at most once |
| WillysConcurrency.PostsOnce | internal/shopping/willys.go:71-104 | a call whose look at the cart never fails like an authentication on the first run posts at most once |
| Like.EscapeIsPerCharacter | internal/agent/tools.go:1436-1441 | the three replacements equal one escape per character |
| Like.SearchFindsSubstring | internal/agent/tools.go:276-278 | the pattern is well formed and matches exactly the texts that contain the query, letter case folded |
| Like.UnescapedFindsMore | internal/agent/tools.go:1434-1435 | without the escape "50%" is found in "500" |
| Kronor.CoreDecides | internal/shopping/willys.go:282-301 | strings with the same digits and commas parse alike |
| Kronor.InsertionNeutral | internal/shopping/willys.go:282-301 | inserting any other character anywhere changes nothing |
| Kronor.WholeAmount | internal/shopping/willys.go:282-301 | digits alone are whole kronor |
| Kronor.DecimalAmount | internal/shopping/willys.go:282-301 | one comma separates kronor and decimals |
| Kronor.DottedAmount | internal/shopping/willys.go:279-281 | dots between thousands are ignored, as in the shop's own amounts |
| Kronor.NoAmount | internal/shopping/willys.go:282-301 | no digits, or two commas, is zero |
| Kronor.GapsEveryThree | web/src/components/WeekView.tsx:354-360 | the grouping pattern matches exactly every three digits from the comma, strictly inside the kronor |
| Kronor.FourDigitsPrinted | web/src/components/WeekView.tsx:354-360 | thousands of kronor are printed in two groups with a comma, two decimals and the unit |
| Kronor.FormatParsesBack | web/src/components/WeekView.tsx:354-360 | parsing what is printed gives the amount to the öre, exactly when it is not negative |
| Toasts.CapQueue | web/src/lib/toast.ts:56-71 | who stays: an error unless three newer errors are queued, another unless errors and newer others fill three places; order kept |
| Toasts.ToastStore.Add | web/src/lib/toast.ts:37-51 | replaced in place, or queued and capped; the id given out |
| Toasts.ToastStore.Dismiss | web/src/lib/toast.ts:73-78 | exactly the toasts of that id go |
| Toasts.ToastStore.CallEach | web/src/lib/toast.ts:37-84 | any calls, one after the other, are a run: at most three toasts, no id twice |
| Toasts.RunsStayOnScreen | web/src/lib/toast.ts:37-84 | over every run at most three toasts are shown and no id twice |
| Toasts.ItemAsAsked | web/src/lib/toast.ts:27-41 | message, variant, action, id and duration of a toast, the defaults included |
| Toasts.NewToastReplacesNone | web/src/lib/toast.ts:37-51 | over every run in which no caller names a number not yet given out, a toast without an id replaces none |
| Toasts.SameIDReplaces | web/src/lib/toast.ts:42-47 | a toast with an id on screen takes exactly that place |
| Toasts.NewcomerShownIff | web/src/lib/toast.ts:56-71 | a new toast appears unless it is no error and three errors are shown |
| Toasts.ErrorEvictedIff | web/src/lib/toast.ts:56-71 | an error is evicted exactly when it is the oldest of three and a fourth arrives |

## Left out

- Postgres: tables are maps, a transaction is all-or-nothing, and `::text`, `::date` and the ISO week label are functions of a `Postgres` record. Timestamps (`updated_at`) are not modelled, so an iso_week lookup is a parameter of the tool call.
- Postgres limits: INT columns and the cart quantity are checked for range; the range of dates and the characters TEXT and JSONB refuse are not modelled.
- SQL text: the SET list is a list of assignments with placeholder numbers, not a string; its rendering and parsing are not modelled.
- ScheduleRuns.RunKeepsOneRowPerDay: plans start in year 1 or later. create_week and update_week cast any string, so an agent can store a date before that, which is not part of this model.
- Schedule.Database.HandleCreateWeek: creates the plan row only, as the source does; the source does not check start <= end either.
- Schedule.Database.HandleCloneWeek: an unknown source and a start that does not cast at once is 404 here; Postgres decides which it reports.
- The order in which copied rows of a clone get their ids is the reading order; SQL does not promise one.
- Sse.StreamRoundTrip: JSON is an abstract codec that prints on one line and reads back; malformed UTF-8, which the server never sends, is not decoded with replacement characters.
- Transcript.Drawer.ApplyAgentEvent: works on the values of the three pieces of state it is given; React rendering is not modelled.
- AgentLoop.ChatTurn.Run: the provider and the tools are arbitrary functions of the round and of the call number; usage recording, prompts and cancellation inside a call are not modelled.
- PlanToolbox.Toolbox.Call: one counter numbers all tables' rows; races between a guard's query and the write after it are not modelled, each call is one step.
- PlanToolbox.Toolbox.CallCartAddMany: the shop's own cart is not modelled, only its answers and the rows kept beside it.
- Crypto.EnvelopeLockedToKey: AES-GCM and base64 are functions assumed to be lawful; secrecy and nonce collisions are not stated.
- Providers.Store.Upsert: two patches at once are not interleaved (the source reads and writes without a transaction); JSON values other than strings are opaque.
- MasterKey.SystemSecrets.LoadOrGenerateMasterKey: decoding of the environment value is a parameter, its length check is not.
- BackupNames.SanitizeLabel: strings.ToLower is a parameter.
- BackupSchedule.NightliesADayApart: needs a clock that does not go back, a listing at start-up that reads every file, and nightly files removed only by Prune; time stamps are any naming that differs a day apart. NightlyFilesADayApart needs the same of clock, listing and removal, and that the nightlies there at the start are older than the run; which files a prune removes is given with the tick.
- Backups.Directory.List: sub-directories are not among a Directory's files; entries whose Info fails are, and are skipped.
- Willys.Client.Login: requests, Set-Cookie parsing and credential encryption are the scripted answers; the client's own read-write lock is not modelled.
- WillysConcurrency.FlagMatchesCreds: the settings are read when the mutex is taken; a login is one step between its start and its end; a token fetched inside AddToCart counts as part of its POST.
- Like.SearchFindsSubstring: ILIKE folds case character by character with an arbitrary function; locale rules that change a text's length are not modelled.
- Kronor.FormatParsesBack: amounts are whole öre and parsed numbers exact decimals; floating point is not modelled.
- Toasts.ToastStore.Add: actions are labels and listeners are not called; auto-dismiss timers are calls of Dismiss.
- Chat.HandleChat: the request's validation, the conversation row and failing saves; React applies the updates of the handlers in order, and those handlers do not throw; highlighting a day and reloading the menu are not modelled.
- HTTP routing, rate limits, static files, search and order calls to the shop, pg_dump, update checks, pricing and the user interface.
