# Verification model of the outreach platform

A LinkedIn outreach platform in three parties: a Go backend with a PostgreSQL
store and a worker tick, a Chrome extension that fetches queued messages,
types them into LinkedIn and reports back, and a web panel. This project
models the logic that decides what is sent, when and how often, and proves
what every run of it keeps. The source is modelled in its own form: handlers
and objects that update state are classes whose methods are proved against
specification functions, and the theorems are about those functions.

| file | what it models |
|---|---|
| `Text.dfy` | the string operations the other modules share |
| `Templates.dfy` | the message renderer and the campaign preview |
| `TemplateValues.dfy` | where the renderer takes each variable's value from |
| `Cadence.dfy` | one contact in one campaign: its row, its jobs, every transition |
| `Outreach.dfy` | one organisation's tables and the handlers as functions on them |
| `OutreachRuns.dfy` | what every run of the pipeline keeps |
| `OutreachTexts.dfy` | the text of every job and of every message |
| `OutreachSteps.dfy` | when a contact's next step is due, why it stops, what a pause holds back |
| `OutreachStore.dfy` | the handlers and the worker tick updating the tables in place |
| `Dispatch.dfy` | the extension's dispatch lock: a flag in memory and a stored lock |
| `Delivery.dfy` | extension and backend together, with service-worker restarts and failing requests |
| `DeliveryRuns.dfy` | every run of the two: late reports, what the lock rules out, the pipeline end to end |
| `DeliveryOrder.dfy` | which job the extension is given |
| `LinkedIn.dfy` | finding and normalising profile links |
| `LinkedInForms.dfy` | both kinds of profile links and percent escapes |
| `ContactNames.dfy` | splitting, joining and deriving the name columns of a contact |
| `Import.dfy` | the tolerant JSON import: the link and the columns of a record, over all walks |
| `ImportColumns.dfy` | which fields of a record fill which columns |
| `Reimport.dfy` | duplicates inside a file, the upsert, and importing a file again |
| `Typing.dfy` | pacing parameters and the humanised typing loop |
| `Assist.dfy` | the assist service's request window and answer cache |
| `HttpLimiter.dfy` | the Redis window counters of the HTTP rate limit |
| `Sessions.dfy` | the backend's sessions and refresh rotation, step by step |
| `SessionLife.dfy` | how long each token is good |
| `ApiClient.dfy` | the panel's API client |
| `RefreshFlow.dfy` | one panel client and the backend together, with failing posts |
| `Locks.dfy` | the Redis token lock and the scheduler's batch loop |
| `Broker.dfy` | the event broker behind the server-sent-event streams |

## How to read it

The main results, hardest first:

1. **The cadence invariant, exactly.** `OutreachRuns.InvariantExactly`: no
   message skipped, delays respected and one outbound message per delivered job
   survive an event if and only if it is not a failure report for a job already
   sent with two recorded failures. Over runs this gives `NoMessageSkipped`,
   `DelaysAddUp`, `ExactlyOnce`; `CadencesEnd` and `AdvancesAndReportsBounded`
   bound what happens to a contact, and `OutreachSteps.DueExactly` says that its
   next step is due exactly when the delays are over.
2. **What a reply stops, exactly.** `OutreachRuns.ReplyStopsExactly`: nothing more
   is sent, whatever is reported afterwards, if and only if every job of the
   contact is delivered with fewer than two recorded failures;
   `ReplyStopsUnlessRevived`: short of a success reported for a job given up, if
   and only if nothing is queued.
3. **When reports are for queued jobs, exactly.** `Delivery` composes the
   extension's lock with the backend, lets any report arrive at any time or never,
   and lets cycles end with their report outstanding.
   `DeliveryRuns.TimelyExactly`: every report is handled for a queued job, in
   whatever follows any moment of a run, if and only if no job is fetched while a
   report of it may still arrive. `LockRulesOutRefetch` says what the lock
   contributes; `EndToEnd`, `CadencesEndEndToEnd` and `ReplyStopsEndToEnd` carry
   the pipeline's theorems over.
4. **What is sent.** `OutreachTexts.OnlyRenderedIsSent`: every outbound message is
   the body reported for a delivery or, when that is empty, what the step's template
   rendered to at a tick, with the contact's values at that moment;
   `TickWritesExactly` says which job a tick creates. Rendering refines one-pass
   substitution (`Templates.SequentialIsOnePass`), `TemplateValues.ValuesExactly`
   gives the value of every name, and an unblocked preview agrees with the renderer
   (`Templates.PreviewSoundForRenderer`).
5. **Refresh chains fork exactly when rotations overlap**
   (`Sessions.ChainExactly`). With one panel client they do not overlap, if and
   only if no post fails at the client while it is on the wire or its rotation
   has not revoked the token (`RefreshFlow.OverlapFreeExactly`).
6. **Importing a file again changes only update times, exactly when** each of its
   records has at most one possible row, link and columns, or only links that
   earlier records take (`Reimport.ReimportExactly`), over all orders in which the
   importer may walk the objects. `Import.RowsExactly` gives the possible rows, and
   `ImportColumns` the column each field feeds.
7. **The order in which subscribers get events** (`Broker.PublicationOrder`,
   `Broker.OrderExactly`).
8. Canonical links, typing (`Typing.TypeHumanly`: paced from both sides for every
   clock), rate windows, cache and locks, token lifetimes
   (`SessionLife.AcceptedExactly`), each with its run-level theorem.

## Assumptions

- Each database transaction is atomic and transactions are serial; the clock is
  shared and does not go back. Times are microseconds and a day is 24 hours.
- The steps of a running campaign are fixed and stand at contiguous positions
  1..n; delays may be any integers, negative ones included.
- `message_jobs` is unique by campaign, contact and step, as
  `backend/internal/messaging/executor.go:216` relies on.
- One extension instance per organisation. `chrome.storage` serves requests in the
  order they were issued. Nothing is assumed about how long a report takes, or
  whether its sender still waits for it; `DeliveryRuns.Prompt` names what
  `LockRulesOutRefetch` asks of the network.
- One panel client with its own storage. Nothing is assumed about how long a
  refresh post takes, or whether the client still waits for it.
- The tick's gates (kill switch, online device, execution window, daily limit) are
  one boolean parameter; the campaign chosen among equally recent ones, and the
  order in which a select without ORDER BY returns rows, are parameters. Rows with
  equal creation times keep their insertion order.
- The browser's and the server's random draws, clocks and network outcomes are
  parameters or arbitrary values. The time the browser takes to insert a chunk and the
  time its timer takes are functions of the chunk's number; the former is not negative.
- Hashes are injective and fresh tokens and identifiers are distinct.
- For the rate limit, Redis applies a request's answered INCR, the attempts at it that
  were lost before, and its EXPIRE at the time the key was built from. Any INCR or
  EXPIRE may also be applied at any later time, with nobody waiting for the answer.

## Where the code differs from what is promised

- A reply stops the contact's rows but not a job already queued: its report counts
  it and moves the contact on (`OutreachRuns.QueuedJobOutlivesReply`). Nor does it
  stop a late success for a job given up before, or a delivery that is undone and
  recorded again. `OutreachRuns.ReplyStopsExactly` gives the exact condition.
- The extension drops its lock when the request carrying a report fails, although
  the backend may still handle it. The next cycle can then fetch the same job, and
  the two reports meet: `DeliveryRuns.DeliveryComesUndone` runs from empty tables to
  a delivery undone, and `DeliveryRuns.HandledExactly` says which reports are late in any run.
- A failure report for a sent job with two recorded failures turns it back into a
  failed one; delivered again it pushes the contact past its current MESSAGE step
  (`OutreachRuns.UndoneDeliverySkips`).
- The tick looks at the ten oldest due rows only. When all ten wait for a report or
  stand in a campaign without steps, no contact behind them is served
  (`OutreachRuns.TickIdleExactly`).
- The preview treats a blank field as filled in, and the worker then stops the
  contact (`Templates.PreviewMissesBlankField`); `PreviewSoundForRenderer` says
  exactly when. The preview knows four variables, in lower case only.
- An answer just stored in the assist cache can be evicted by its own store, exactly
  when the eviction list is full with that key as its oldest entry
  (`Assist.StoredThenRead`).
- The assist window admits up to 2 * limit - 1 requests in a minute, not limit
  (`Assist.SlidingBound`, reached by `Assist.SlidingBoundIsTight`).
- Canonicalising twice is not always canonicalising once: the cut of trailing
  punctuation can leave no slug, or one that ends in a space character such as
  U+00A0. `LinkedIn.IdempotentExactly` gives the condition.
- The comment on rotation says each refresh token is good for one use. Lookup and
  revocation are separate transactions and the revocation does not check that it
  revoked anything, so two overlapping rotations of one token both succeed
  (`Sessions.OverlapForks`).
- A failed refresh request lets the client post the same token once more while the
  backend still rotates it (`RefreshFlow.EarlyFailureOverlaps`).
- A sign-out does not stop a rotation that is past its lookup: that rotation stores an
  unrevoked refresh token afterwards. `Sessions.SignOutEndsExactly` gives the condition.
- The comment on the upsert says that importing a file again updates contacts and
  does not duplicate them. A record with two different profile links can be given
  either, since Go maps are walked in a new order every time, and the second import
  may add a second contact (`Reimport.TwoLinks`). A record with two names under keys
  that normalise alike, "Nome" and "nome", can be given either name, and the second
  import may change it (`Reimport.CollidingNames`). `Reimport.ReimportExactly` gives
  the condition.
- An INCR of the rate limit that Redis applies without its answer arriving uses up a
  place of the window all the same, and when it is the window's first one the counter
  is left without a lifetime (`HttpLimiter.WindowExactly`, `HttpLimiter.LostFirstLasts`).
- A publication takes only the broker's read lock, so two publications that overlap
  may reach two subscribers in different orders (`Broker.OrdersDiffer`).
- A lock set by a call whose answer is lost is never released by its owner, and keeps
  the row back for the lock's lifetime (`Locks.UnansweredSetBlocks`).

## Model

| member | source | states |
|---|---|---|
| Cadence.NoSkipPreserved | backend/internal/api/handlers.go:2319-2383 | every tick, report and reply keeps: jobs only on MESSAGE steps up to the position, all MESSAGE steps below it sent, an unsent job only at it, attempts at most 2 while queued and at least 3 once failed |
| Cadence.DelaysPreserved | backend/internal/api/handlers.go:2912-2948 | every transition keeps each later job at least the summed delays after each earlier delivery |
| Cadence.RankFalls | backend/internal/api/handlers.go:2795-2830 | an explicit rank strictly falls whenever a transition changes the contact, for every report except a failure of a job no longer queued |
| Cadence.QuietUntilRevived | backend/internal/api/handlers.go:3061-3086 | a stopped contact with nothing queued gets no job and no delivery, if and only if the event is not a success for a failed job |
| Cadence.SentStaysSent | backend/internal/api/handlers.go:2795-2830 | a sent job with fewer than two recorded failures never changes |
| Outreach.CandidatesExactly | backend/internal/api/handlers.go:2287-2317 | the candidates are live, due rows of the campaign in creation order; one is left out only when there are ten and all of them are older |
| Outreach.TickRowsEffect | backend/internal/api/handlers.go:2206-2285 | the loop over candidates changes each visited row by its own transition, up to the first one enqueued, and no other row |
| Outreach.EventActsOnTracks | backend/internal/api/handlers.go:2150-2285 | every handler and tick acts on each contact's row and jobs as one transition of its cadence and adds only new rows |
| OutreachRuns.InvariantExactly | backend/internal/api/handlers.go:2764-2949 | the pipeline's invariant survives an event if and only if it is not a failure report for a sent job with two recorded failures |
| OutreachRuns.NoMessageSkipped | backend/internal/api/handlers.go:2319-2383 | in every reachable state at most one unsent job, at the position; every MESSAGE step below it sent; a completed contact was sent them all and its cadence has steps; queued jobs have at most two recorded failures, failed ones at least three and a stopped row |
| OutreachRuns.DelaysAddUp | backend/internal/api/handlers.go:2912-2948 | in every reachable state a later job was enqueued no sooner than an earlier delivery plus the delays between |
| OutreachRuns.DelaysAddUpInUnits | backend/internal/api/handlers.go:2939-2947 | those delays are the days, hours and minutes of the rows between, added up; other units add nothing |
| Cadence.DelaySumInUnits | backend/internal/api/handlers.go:2368-2382 | the delays of any stretch of a cadence are its days, hours and minutes |
| OutreachRuns.ExactlyOnce | backend/internal/api/handlers.go:2832-2896 | in every reachable state a contact has as many pipeline outbound messages as delivered jobs |
| OutreachRuns.SentForever | backend/internal/api/handlers.go:2795-2830 | through every run, whatever is reported, a sent job with fewer than two recorded failures stays as it is |
| OutreachRuns.ChangesBounded | backend/internal/api/handlers.go:2795-2948 | over any run with reports for queued jobs the number of changes of a contact is at most its rank |
| OutreachRuns.CadencesEnd | backend/internal/api/handlers.go:2923-2948 | a staged contact changes at most 7n + 6 times however long the run |
| OutreachRuns.AdvancesAndReportsBounded | backend/internal/api/handlers.go:2795-2948 | a staged contact advances at most n times, and takes up at most three reports for a step while reports concern queued jobs |
| OutreachRuns.StopOnReplyForever | backend/internal/api/handlers.go:3061-3086 | after a reply with nothing queued no job and no delivery is added in any campaign the contact was in, until a success is reported for a job given up before |
| OutreachRuns.NoMessageAfterReply | backend/internal/api/handlers.go:3061-3086 | nor does its outbound count grow while it is not staged into a new campaign |
| OutreachRuns.QueuedJobOutlivesReply | backend/internal/api/handlers.go:3079-3086 | any job queued when the reply arrives is still counted on delivery and advances the contact, alive if there is a next step |
| OutreachRuns.ReplyStopsExactly | backend/internal/api/handlers.go:3061-3086 | whatever follows a reply, short of a new campaign, nothing more is sent, if and only if every job of the contact is sent with fewer than two recorded failures |
| OutreachRuns.ReplyStopsUnlessRevived | backend/internal/api/handlers.go:3061-3086 | and short of a success for a job given up before, if and only if nothing of the contact is queued |
| OutreachRuns.UndoneDeliverySkips | backend/internal/api/handlers.go:2797-2804 | an undone and repeated delivery moves the contact past a MESSAGE step that has no job |
| OutreachRuns.TickIdleExactly | backend/internal/api/handlers.go:2202-2285 | with the gates open a tick changes nothing if and only if each of the ten oldest due rows is reserved or in a campaign without steps |
| OutreachRuns.OneJobPerTick | backend/internal/api/handlers.go:2202-2285 | one tick creates at most one job |
| OutreachTexts.TickWritesExactly | backend/internal/api/handlers.go:2202-2282 | a tick creates a job exactly for the contact it comes to that stands at a MESSAGE step with no job out and renders completely, at its position; the text is the step's template rendered with the contact's values at that moment |
| OutreachTexts.TextKept | backend/internal/api/handlers.go:2764-2949 | every event keeps the text and creation time of every job |
| OutreachTexts.JobsAreRendered | backend/internal/api/handlers.go:2218-2242 | in every run from empty tables each job's text is what its step rendered to at a tick of the run |
| OutreachTexts.MessagesExactly | backend/internal/api/handlers.go:2872-2890 | a delivery puts one outbound message on record, its own body or else the job's text; a reply one inbound message with its body; every other event nothing |
| OutreachTexts.MessagesOnRuns | backend/internal/api/handlers.go:2872-2890 | the messages of a run are what its events put on record, in order, none changed or lost |
| OutreachTexts.OnlyRenderedIsSent | backend/internal/api/handlers.go:2218-2282 | every outbound message of a run from empty tables is the body of a reported delivery to that contact or, when empty, the text its step rendered to for it at an earlier tick |
| OutreachSteps.DueExactly | backend/internal/api/handlers.go:2912-2948 | in every reachable state a contact at its first step is due at once, and one that has moved on exactly the delay of the step it left after that step's delivery |
| OutreachSteps.StopsExactly | backend/internal/api/handlers.go:2219-2228 | an event stops a contact for a missing variable, a third failure or a reply exactly when that happens to it, and its row says which |
| OutreachSteps.DeliveryMovesOn | backend/internal/api/handlers.go:2832-2949 | a delivery marks the job sent at this moment and takes the contact one step on, or completes it after the last |
| OutreachSteps.TickMovesOn | backend/internal/api/handlers.go:2319-2383 | a contact past its last step is completed; one at a step that sends nothing goes on to the next, due when that step's delay is over |
| OutreachSteps.FailureCounts | backend/internal/api/handlers.go:2795-2830 | a failure counts on a queued job, the third gives any job up, and nothing else changes |
| OutreachSteps.ReplyKeepsJobs | backend/internal/api/handlers.go:3061-3086 | a reply adds one inbound message and leaves every job, every other contact and every row no longer live alone |
| OutreachSteps.PausedGetsNoJob | backend/internal/api/handlers.go:2178-2187 | through every run a paused campaign gets no job until it is set running again |
| OutreachSteps.SetRunningExactly | backend/internal/api/handlers.go:1815-1887 | the campaign set running last is the one the next tick works on; others are left alone |
| DeliveryOrder.PollExactly | backend/internal/api/handlers.go:2500-2510 | the poll answers with a job exactly when one is queued in a running campaign, and then with one no other such job is older than |
| DeliveryOrder.FetchedInOrder | ext/entrypoints/background.ts:376-388 | no step of the whole gives a cycle a job while an older one waits, or a job of a paused campaign |
| DeliveryOrder.PausedIsNotFetched | backend/internal/api/handlers.go:2500-2510 | through every run of the whole no job of a paused campaign is fetched until it is set running again |
| OutreachStore.Store.StageCampaignContacts | backend/internal/api/handlers.go:1717-1732 | staging adds a fresh row for each contact not yet in the campaign, in list order, or nothing when a key is unknown |
| OutreachStore.Store.StartCampaign | backend/internal/api/handlers.go:1737-1813 | starting marks the campaign running and stages the whole contact base; rows already there are kept |
| OutreachStore.Store.SetCampaignRunning | backend/internal/api/handlers.go:1815-1887 | pause and resume change only the campaign's state and its time of update |
| OutreachStore.Store.CurrentMessageStep | backend/internal/api/handlers.go:2319-2383 | returns the MESSAGE step to deliver with the tables unchanged, or performs the candidate's transition |
| OutreachStore.Store.Enqueue | backend/internal/api/handlers.go:2218-2282 | renders and inserts the job once, or stops the contact on a missing variable; what it inserts is stated by OutreachTexts.TickWritesExactly |
| OutreachStore.Store.ProcessNextOutreachStep | backend/internal/api/handlers.go:2150-2285 | the loop over candidates equals the tick on the tables, for which the run theorems are proved |
| OutreachStore.Store.HandleJobSent | backend/internal/api/handlers.go:2832-2948 | a success report records one message and advances the row unless the job was sent before |
| OutreachStore.Store.HandleJobFailed | backend/internal/api/handlers.go:2795-2830 | a failure report counts an attempt on a queued job and gives the job up on the third |
| OutreachStore.Store.HandleReportReply | backend/internal/api/handlers.go:3012-3146 | a non-blank reply stops the contact's pending and waiting rows in every campaign and records one inbound message |
| Dispatch.InvokeDisciplined | ext/entrypoints/background.ts:519-535 | any number of timer, alarm and message invocations keep the lock discipline |
| Dispatch.ServeDisciplined | ext/entrypoints/background.ts:344-372 | serving storage requests in order keeps the lock discipline |
| Dispatch.GateDisciplined | ext/entrypoints/background.ts:344-372 | passing or failing the gate keeps the lock discipline |
| Dispatch.FinishDisciplined | ext/entrypoints/background.ts:462-479 | the finally block keeps the lock discipline |
| Dispatch.RestartDisciplined | ext/entrypoints/background.ts:344-372 | losing the worker's memory at any moment keeps the lock discipline and leaves the cut dispatch's lock behind |
| Dispatch.NewDispatchExactly | ext/entrypoints/background.ts:344-366 | after one was cut short, a dispatch gets through exactly when it started the lock's lifetime after it |
| Dispatch.ServiceWorker.OnLockRead | ext/entrypoints/background.ts:346-372 | the callback enters exactly when the flag is down and the stored lock is absent or expired |
| Dispatch.ServiceWorker.Release | ext/entrypoints/background.ts:462-479 | the finally block drops the flag and asks for the lock's removal |
| Dispatch.ServiceWorker.DispatchNextJob | ext/entrypoints/background.ts:344-346 | an invocation asks for the stored lock before anything else |
| Delivery.SysInvariantExactly | ext/entrypoints/background.ts:344-479 | the joint invariant, with every attempted job queued and attempted once at a time, survives an action if and only if it is not the fetch of a job of which a report may still arrive |
| DeliveryRuns.TimelyExactly | ext/entrypoints/background.ts:376-478 | a run has no such fetch if and only if, whatever follows any of its moments short of one, every report is handled for a job still queued |
| DeliveryRuns.HandledExactly | ext/entrypoints/background.ts:376-478 | in any run at all, the reports handled for jobs no longer queued are those of cycles overtaken by another report that settled the job |
| DeliveryRuns.LockRulesOutRefetch | ext/entrypoints/background.ts:344-366 | the lock rules such fetches out, restarts included, as long as no living cycle ends with its report outstanding and an orphaned report is handled or lost within the lock's lifetime |
| DeliveryRuns.RefetchComesAbout | ext/entrypoints/background.ts:344-478 | from empty tables one contact, one dispatch and one failed request lead to such a fetch |
| DeliveryRuns.LateReportUndoes | ext/entrypoints/background.ts:427-478 | the run in which a failed request, the next cycle and two reports end with a delivery undone |
| DeliveryRuns.DeliveryComesUndone | ext/entrypoints/background.ts:344-478 | a run from empty tables, with two failed dispatches and a third whose request fails, ends with a delivery undone |
| DeliveryRuns.ReportsAreForQueuedJobs | ext/entrypoints/background.ts:344-479 | after a run without such a fetch every report still to arrive is for a queued job |
| DeliveryRuns.OneDispatchOnRuns | ext/entrypoints/background.ts:344-479 | in every run at most one dispatch is past the gate |
| DeliveryRuns.RestartedDispatchWaits | ext/entrypoints/background.ts:344-372 | in every run the next dispatch after a restart starts no sooner than the lock's lifetime after the start of the one cut short |
| DeliveryRuns.SystemRunsAreGood | backend/internal/api/handlers.go:2764-2949 | every run of the whole without such a fetch is, for the tables, a run in which all reports are in order |
| DeliveryRuns.EndToEnd | backend/internal/api/handlers.go:2479-2597 | for these runs: no message skipped, completed contacts sent everything, delays respected, deliveries counted once |
| DeliveryRuns.CadencesEndEndToEnd | backend/internal/api/handlers.go:2923-2948 | for these runs: at most 7n + 6 changes, n advances and three reports per step |
| DeliveryRuns.ReplyStopsEndToEnd | backend/internal/api/handlers.go:3061-3086 | for these runs: a reply with nothing queued adds no job and no delivery from then on |
| Templates.NameRun | backend/internal/templates/renderer.go:9 | the longest run of name characters |
| Templates.NameAtStart | backend/internal/templates/renderer.go:9 | a match found at the start of a text is a non-empty name in double braces |
| Templates.NameAtStartExactly | backend/internal/templates/renderer.go:9 | a name is found if and only if the text starts with it in double braces |
| Templates.FindAllIsLeftmost | backend/internal/templates/renderer.go:44 | the match list is empty if there is no match anywhere, and otherwise the leftmost match followed by the matches after its end |
| Templates.CollectValues | backend/internal/templates/renderer.go:48-64 | the loop builds the table of values that TemplateValues.ValuesExactly describes |
| TemplateValues.ValuesExactly | backend/internal/templates/renderer.go:48-64 | the value of every name: the last metadata entry under it in lower case, trimmed; else the trimmed column of that name, for each of the five; else none |
| TemplateValues.ColumnsRender | backend/internal/templates/renderer.go:35-93 | a template that is one column's placeholder, in any letter case, renders to that column trimmed, or is held back naming it when blank |
| TemplateValues.EntryRenders | backend/internal/templates/renderer.go:57-64 | and a metadata entry's placeholder to that entry, before a column of its name |
| TemplateValues.NothingLeftToFill | backend/internal/templates/renderer.go:66-92 | with brace-free values a text that is not held back has no brace and no placeholder left |
| Templates.ReplaceMatches | backend/internal/templates/renderer.go:66-76 | the loop over matches collects the unresolved names and replaces in match order |
| Templates.Render | backend/internal/templates/renderer.go:35-93 | the method returns the text, missing names and review flag that ReviewExactly, SequentialIsOnePass and TemplateValues describe |
| Templates.ParseReproduces | backend/internal/templates/renderer.go:44 | parsing loses nothing, and its names are the match list |
| Templates.ReplaceResolvesOneName | backend/internal/templates/renderer.go:66-76 | one ReplaceAll resolves one more name at all its places and touches nothing else |
| Templates.ReplaceEachIsSubstitution | backend/internal/templates/renderer.go:66-76 | the passes over any match list, repeats included, add up to one substitution |
| Templates.ReviewExactly | backend/internal/templates/renderer.go:35-93 | review if and only if the template is blank or a variable lacks a non-blank value; then the text is untouched |
| Templates.SequentialIsOnePass | backend/internal/templates/renderer.go:44-93 | for brace-free values and literals the renderer equals parsing once and substituting |
| Templates.Preview | backend/internal/api/handlers.go:1624-1704 | no entry without a MESSAGE step, otherwise one for each of the first five contacts, and the launch verdict: some entry and none blocked |
| Templates.ReplaceFieldsIsSubstitution | backend/internal/api/handlers.go:1665-1678 | the preview's replacements, in their own order, are a substitution |
| Templates.LeftmostBraceIsFirstOpen | backend/internal/api/handlers.go:1665-1678 | the leftmost double brace left over opens the first unresolved placeholder |
| Templates.PreviewBlocksExactly | backend/internal/api/handlers.go:1665-1678 | a preview is blocked if and only if a variable outside its fields is used, and names the first such |
| Templates.PreviewSoundForRenderer | backend/internal/api/handlers.go:1665-1678 | after an unblocked preview the renderer refuses exactly when a used field is blank, and otherwise gives the same text for trimmed fields |
| Templates.PreviewFieldsAgree | backend/internal/templates/renderer.go:48-64 | the preview's four columns are among the renderer's |
| Templates.PreviewMissesBlankField | backend/internal/api/handlers.go:1665-1678 | a blank field is previewed as launchable and refused by the renderer |
| LinkedIn.CanonicalLinkedInURL | backend/internal/api/import_json.go:36-47 | the method computes the normal form of the leftmost match |
| LinkedIn.CanonicalInContext | backend/internal/api/import_json.go:30-47 | whatever text surrounds it, the link alone is normalised, unless the slug ends in a space character with only white space after it |
| LinkedIn.CanonicalUnsheltered | backend/internal/api/import_json.go:36-40 | in that case the link is what is left when the text is trimmed |
| LinkedIn.SpellingDoesNotMatter | backend/internal/api/import_json.go:30-47 | the same profile in any surrounding text and letter case has one canonical URL |
| LinkedIn.UnescapeCase | backend/internal/api/import_json.go:41-44 | letter case, in escapes too, does not change what is decoded, up to case |
| LinkedIn.IdempotentExactly | backend/internal/api/import_json.go:36-47 | for plain profile links canonicalising again changes nothing if and only if, trailing punctuation cut, a slug is left and it does not end in white space |
| LinkedInForms.UnescapeExactly | backend/internal/api/import_json.go:42-44 | decoding undoes exactly the spellings in which each character is itself or its two hexadecimal digits after a percent sign |
| LinkedInForms.CanonicalPubInContext | backend/internal/api/import_json.go:29-47 | whatever text surrounds it, a link with /pub/ and several path segments is what is normalised |
| LinkedInForms.NothingWithoutPath | backend/internal/api/import_json.go:29 | an address with nothing after it is no link |
| LinkedInForms.PlainPubIs | backend/internal/api/import_json.go:36-47 | it keeps its whole path in lower case, but for one slash at its end |
| LinkedInForms.PlainInIs | backend/internal/api/import_json.go:36-47 | a link with /in/ keeps its one segment in lower case |
| LinkedInForms.EscapedIsDecoded | backend/internal/api/import_json.go:41-46 | a link with escapes is that of what they stand for |
| Import.FindsExactly | backend/internal/api/import_json.go:166-184 | over all orders in which objects are walked, the deep search answers exactly the possible links, and nothing only if there are none |
| Import.FindLinkedInDeep | backend/internal/api/import_json.go:166-184 | the recursive search, walking objects in any order, gives one of these answers |
| Import.NormalizeKeys | backend/internal/api/import_json.go:152-161 | the walk in any order leaves each normalised key with the value walked last |
| Import.PicksNormalize | backend/internal/api/import_json.go:152-161 | of colliding keys any value may be the one that stays, independently for each key |
| Import.ContactUrl | backend/internal/api/import_json.go:206-216 | the loop over the alias fields, after one walk, and the deep search, a second one: the first alias that holds a link, or an answer of the search |
| Import.FirstNonEmptyString | backend/internal/api/import_json.go:139-150 | the loop gives the trimmed text of the first alias that holds any |
| Import.ContactRow | backend/internal/api/import_json.go:196-239 | one walk decides both the columns and the alias link, a second one the deep search; no row without a link |
| Import.NormsExactly | backend/internal/api/import_json.go:152-161 | over all orders the walk that normalises keys ends with exactly the maps computed field by field, either of two colliding values staying |
| Import.RowsExactly | backend/internal/api/import_json.go:196-239 | over all orders of both walks a record is given exactly one of its possible rows, link and columns, and is skipped if and only if there is none |
| ImportColumns.LinkColumn | backend/internal/api/import_json.go:127-137 | the link of every possible row is that of the first of its aliases ("linkedin_url", "perfil_linkedin_url", ...) with one, before any link elsewhere |
| ImportColumns.CompanyColumn | backend/internal/api/import_json.go:196-203 | the company of every possible row is the trimmed text of the first of its aliases ("company", "empresa", ...) with any, or empty |
| ImportColumns.JobColumn | backend/internal/api/import_json.go:196-203 | and the job title that of its own ("job_title", "jobtitle", "cargo", ...) |
| ImportColumns.NameColumns | backend/internal/api/import_json.go:196-232 | first, last and full name come from their own aliases, a missing full or first name is made up from the other one, and both from the link's slug when neither is given |
| ContactNames.WordsSplit | backend/internal/api/handlers.go:836 | white space separates words wherever it stands |
| ContactNames.SplitAtComma | backend/internal/api/handlers.go:832-834 | "Last, First" |
| ContactNames.SplitAtSpace | backend/internal/api/handlers.go:836-843 | without a comma the first word, and the words after it |
| ContactNames.SlugOfIn | backend/internal/api/import_json.go:53-75 | a canonical link with /in/ suggests the parts of its slug, each with a capital letter, as the words of a name |
| ContactNames.SlugOfPub | backend/internal/api/import_json.go:53-75 | and one with /pub/ those of its first segment, whatever follows it |
| ContactNames.SplitKeepsWords | backend/internal/api/handlers.go:831-843 | without a comma the two parts of a name are its words in order, none lost |
| ContactNames.CompletedKeeps | backend/internal/api/import_json.go:221-232 | completing the columns keeps a full name, a first name with its last name, company and job title that were given |
| Import.LinksExactly | backend/internal/api/import_json.go:196-219 | over all orders of both walks a record is given exactly one of its possible links, computed from its fields |
| Reimport.LinksAgreeExactly | backend/internal/api/import_json.go:196-219 | two imports always agree on a record's link if and only if it has one possible link at most |
| Import.DeepAnswers | backend/internal/api/import_json.go:166-184 | in whatever order, the search answers with the normal form of some string inside, and nothing only if none holds a link |
| Import.RecordUrlExactly | backend/internal/api/import_json.go:196-219 | for every alias list and any orders of the two walks a record is skipped if and only if no string at any depth holds a profile link |
| Reimport.CollectRows | backend/internal/api/import_json.go:299-314 | the loop keeps the first record of each link; imported, skipped and duplicates add up to the records |
| Reimport.KeptExactly | backend/internal/api/import_json.go:299-314 | the rows are exactly the first records of their links, in file order; links are pairwise different and cover every record that has one |
| Reimport.ContactTable.Execute | backend/internal/api/import_json.go:251-263 | one upsert keeps the creation time of a known contact |
| Reimport.ContactTable.InsertContactsUpsert | backend/internal/api/import_json.go:245-269 | the chunks of 500 execute each row exactly once, in order |
| Reimport.UpsertAllHit | backend/internal/api/import_json.go:245-269 | every imported row is stored under its link |
| Reimport.UpsertAllMiss | backend/internal/api/import_json.go:245-269 | a link not imported is not touched |
| Reimport.SameRowsChangeNothing | backend/internal/api/import_json.go:245-269 | upserting rows with different links once more changes only update times |
| Reimport.ReimportExactly | backend/internal/api/import_json.go:274-321 | importing a file again changes only update times, for every table and all walks, if and only if each record has one possible row at most, columns included, or no link that earlier records cannot take |
| Reimport.TwoLinks | backend/internal/api/import_json.go:166-184 | a record with two links in other fields is imported as one contact and then as another |
| Reimport.CollidingNames | backend/internal/api/import_json.go:152-161 | a record with one link and two names under keys that normalise alike is imported with one name and then with the other |
| Reimport.SpellingsCollide | backend/internal/api/import_json.go:152-161 | "Nome" and "nome" are such keys |
| Typing.ServerRandInt | backend/internal/api/assist.go:159-164 | the draw excludes the upper end and answers the lower for an empty range |
| Typing.HumanizeParams.Fallback | backend/internal/api/assist.go:141-157 | the fallback curve, every minimum positive and at most its maximum |
| Typing.HumanizeParams.ApplyPacingProfile | backend/internal/api/assist.go:505-533 | for every draw each value, the click delay included, lies in its profile's range and the minima stay at most the maxima |
| Typing.HumanizeParams.SlowDown | backend/internal/api/assist.go:426-435 | slowing down keeps the parameters sane if and only if twice the shortest pause fits under the stretched longest |
| Typing.DecideParams | backend/internal/api/assist.go:420-435 | every level yields sane parameters drawn in its profile, slowed down exactly when asked to |
| Typing.LevelsExactly | backend/internal/api/assist.go:505-533 | the numbers each level may yield |
| Typing.LevelsKeepOrder | backend/internal/api/assist.go:502-533 | however the draws fall, an energetic pace is livelier than a moderate one and that than a conservative one |
| Typing.NextChunk | ext/entrypoints/content.ts:299-304 | the adapted chunk size stays in 1..12 |
| Typing.GrowsOnlyWhenSlow | ext/entrypoints/content.ts:278-304 | typing starts at one character a timer and grows by two for each timer that took more than twice its time, and by nothing else |
| Typing.ShrinksWhenPrompt | ext/entrypoints/content.ts:299-304 | each timer on time takes the chunk down by one, back to one character after eleven |
| Typing.OneByOneWhenVisible | ext/entrypoints/content.ts:269-306 | in a run in which no timer takes more than twice its time the text is typed one character at a time |
| Typing.TypeHumanly | ext/entrypoints/content.ts:269-306 | the loop ends, inserts exactly the text in order in chunks that adapt to the timers and are cut only at pauses, pauses at gaps in range up to the end, sleeps what is left of each chunk's time, asks for no more than a time linear in the length, and with inserting takes at least that of the fastest speed and the shortest pauses |
| Typing.TypeWithServerPace | ext/entrypoints/content.ts:269-306 | all of that for whatever the server decides |
| Assist.SlidingBound | backend/internal/api/assist.go:239-252 | no run admits more than 2 * limit - 1 requests in any closed minute |
| Assist.SlidingBoundIsTight | backend/internal/api/assist.go:239-252 | a run that reaches this bound, for every limit |
| Assist.CacheOkAfterSet | backend/internal/api/assist.go:269-279 | a store keeps the cache in agreement with its write log, each key in the eviction list, and the list within 256 |
| Assist.HitsExactly | backend/internal/api/assist.go:259-279 | there is a hit exactly when the key was stored at most ten minutes ago and not thrown out since, and it is what was stored last |
| Assist.KeptAppend | backend/internal/api/assist.go:269-279 | a store keeps its own key and every other one, except the key of the entry it drops from the full eviction list |
| Assist.HitsAreCurrent | backend/internal/api/assist.go:259-267 | every hit is the last write of that key, at most ten minutes old, and never a fallback |
| Assist.CacheBounded | backend/internal/api/assist.go:269-279 | never more than 256 answers |
| Assist.StoredThenRead | backend/internal/api/assist.go:269-279 | an answer just stored can be read back if and only if its key was not the oldest entry of a full list |
| Assist.AssistService.AllowRequest | backend/internal/api/assist.go:239-252 | the method admits and counts as the window specifies |
| Assist.AssistService.Store | backend/internal/api/assist.go:269-279 | the method stores, appends and evicts as specified |
| Assist.AssistService.Consult | backend/internal/api/assist.go:184-212 | up to the call: not configured and not admitted give the fallback with their own reason; otherwise the answer last stored for the key if it is current, and the call exactly if it is not; one request is counted exactly when configured |
| Assist.AssistService.Conclude | backend/internal/api/assist.go:214-236 | from the outcome on, whatever was served in between: Typesafe's own answer is returned and stored; anything else is a fallback, made up when nothing came back, and not stored |
| HttpLimiter.AdmittedExactly | backend/internal/api/middleware_ratelimit.go:54-85 | a request passes if and only if it is not answered or fewer INCRs than the limit were applied before the one it is answered for, lost attempts included, with its key in its window, whatever Redis discarded or applied late |
| HttpLimiter.WindowExactly | backend/internal/api/middleware_ratelimit.go:58-83 | at most `limit` answered requests of a key pass in an aligned window, exactly the first `limit` when no INCR was applied unanswered, and each such INCR costs at most one place |
| HttpLimiter.SpanBounded | backend/internal/api/middleware_ratelimit.go:58-83 | no closed span of the window's length lets more than twice the limit of answered requests through |
| HttpLimiter.LivesExactly | backend/internal/api/middleware_ratelimit.go:63-71 | a window's first request leaves a counter that lives exactly as long as the window is |
| HttpLimiter.LostFirstLasts | backend/internal/api/middleware_ratelimit.go:63-71 | when a window's first INCR is applied and its answer lost, no later request gives the counter a lifetime |
| HttpLimiter.Redis.Incr | backend/internal/api/middleware_ratelimit.go:63 | an absent or expired counter counts from zero; a live one keeps its lifetime |
| HttpLimiter.Redis.IncrCall | backend/internal/api/middleware_ratelimit.go:60-68 | the client's call, with attempts applied before their answers were lost, answered or given up |
| HttpLimiter.RateLimit | backend/internal/api/middleware_ratelimit.go:46-87 | the middleware performs the counting step and its verdict: it fails open without an answer, whatever was applied, and asks for a lifetime exactly on the answer 1 |
| Sessions.ChainExactly | backend/internal/api/handlers_sessions.go:224-288 | each sign-in keeps one unrevoked refresh token or one rotation under way, if and only if no token is looked up while another rotation of it has yet to revoke it |
| Sessions.OverlapForks | backend/internal/api/handlers_sessions.go:233-281 | two rotations that both found a token live leave two live refresh tokens of one sign-in |
| Sessions.ChainsNeverFork | backend/internal/api/handlers_sessions.go:224-288 | over every run without such an overlap chains stay in order and each token is used up at most once |
| Sessions.AtomicRequestsNeverFork | backend/internal/api/handlers_sessions.go:224-288 | with requests served one at a time, any failures included, each refresh token succeeds at most once and each sign-in has at most one live one |
| Sessions.SignOutEndsExactly | backend/internal/api/handlers_sessions.go:116-124 | a sign-out ends a sign-in for good if and only if no rotation of it is past its lookup |
| SessionLife.AliveExactly | backend/internal/api/handlers_sessions.go:49-57 | in every run a session is good exactly when a sign-in or a rotation issued it, with its lifetime, and no rotation or sign-out withdrew it since |
| SessionLife.AcceptedExactly | backend/internal/api/handlers_sessions.go:62-88 | a refresh token is accepted exactly for seven days from its issue, unless withdrawn |
| Sessions.SessionStore.LookupSession | backend/internal/api/handlers_sessions.go:62-88 | finds exactly the sessions neither revoked nor expired |
| Sessions.SessionStore.InsertSession | backend/internal/api/handlers_sessions.go:49-57 | adds one session with its lifetime |
| Sessions.SessionStore.HandleRefresh | backend/internal/api/handlers_sessions.go:224-288 | the handler does what its steps do in sequence and issues a pair exactly when the token is accepted and nothing fails |
| ApiClient.OneRefreshTwoFetches | packages/api-client/src/index.ts:317-381 | under every interleaving one refresh is outstanding at most, no request is fetched more than twice, and none waits on a refresh that is neither outstanding nor settled |
| ApiClient.ClientKept | packages/api-client/src/index.ts:317-381 | every continuation keeps the client's invariant, with exactly one request responsible for clearing the refresh in flight |
| ApiClient.EndsExactly | packages/api-client/src/index.ts:341-381 | a request ends exactly with a response that allows no refresh, in success if it is fine, or in failure with a refresh that brought nothing |
| ApiClient.SucceedsExactly | packages/api-client/src/index.ts:341-381 | over every run it succeeds exactly when the fetch it had under way was answered well |
| ApiClient.VibexApiClient.StartOrJoinRefresh | packages/api-client/src/index.ts:317-339 | joins the refresh in flight or starts one with the stored token |
| ApiClient.VibexApiClient.OnResponse | packages/api-client/src/index.ts:352-381 | refreshes only on a first 401 outside the auth paths |
| ApiClient.VibexApiClient.OnRefreshAnswer | packages/api-client/src/index.ts:327-332 | stores the new pair, or settles with nothing |
| ApiClient.VibexApiClient.OnRefreshSettled | packages/api-client/src/index.ts:334-365 | the starter clears the refresh in flight; each waiter repeats once or fails |
| RefreshFlow.SystemExactly | packages/api-client/src/index.ts:317-339 | the joint invariant survives an event if and only if it is not a post failing at the client while its token is good and it is on the wire or not yet revoked |
| RefreshFlow.NeverOverlaps | packages/api-client/src/index.ts:317-339 | under the invariant no rotation is looked up while another of its token has yet to revoke it |
| RefreshFlow.OverlapFreeExactly | packages/api-client/src/index.ts:317-339 | a run has no such failure if and only if, whatever follows any of its moments short of one, no two rotations overlap |
| RefreshFlow.EarlyFailureOverlaps | packages/api-client/src/index.ts:317-365 | after such a failure the client posts the token again and both posts are looked up |
| RefreshFlow.ClientHoldsTheUnrevokedToken | packages/api-client/src/index.ts:317-339 | in every run without such a failure its chain never forks, and unless a pair was lost or somebody signed out it holds the unrevoked token whenever no refresh is outstanding |
| RefreshFlow.DeliveredPairIsUnrevoked | packages/api-client/src/index.ts:327-332 | in every such run a delivered and stored answer leaves the client with the unrevoked token |
| Locks.HolderIsStored | backend/platform/redis/redis.go:38-61 | a holder's lock stays in Redis until its own release or the end of its lifetime, whatever others do |
| Locks.MutualExclusion | backend/platform/redis/redis.go:38-45 | no two acquisitions hold one key at the same time |
| Locks.ForeignReleaseIsHarmless | backend/platform/redis/redis.go:48-61 | a release with any other token, an expired holder's included, frees nothing |
| Locks.StoredIsHeld | backend/platform/redis/redis.go:38-61 | whatever keeps a key taken is a current hold |
| Locks.ItemBracketed | backend/internal/scheduler/scheduler.go:130-182 | every exit path after an acquisition releases with its own token |
| Locks.MarkedExactly | backend/internal/scheduler/scheduler.go:130-182 | a row is queued and marked active exactly when its lock was acquired and everything up to the enqueueing went well |
| Locks.BatchMarksExactly | backend/internal/scheduler/scheduler.go:129-182 | over the batch the rows marked are those that got their lock and met no failure |
| Locks.ItemFrees | backend/internal/scheduler/scheduler.go:130-182 | after its turn a row's key is free again, or at the end of the lock's lifetime if the release never reached Redis |
| Locks.Scheduler.AcquireLock | backend/platform/redis/redis.go:38-45 | acquires exactly when the key is absent or expired and Redis answers; an unanswered call may set the lock all the same |
| Locks.UnansweredSetBlocks | backend/internal/scheduler/scheduler.go:136-138 | a lock set without an answer is left alone and keeps the row back until its lifetime is over |
| Locks.Scheduler.ReleaseLock | backend/platform/redis/redis.go:48-61 | deletes exactly the live lock with the given token, answered or not |
| Locks.Scheduler.ScheduleItem | backend/internal/scheduler/scheduler.go:130-182 | the calls made for a row, on every path and with any Redis outcome, while other schedulers use Redis in between |
| Locks.Scheduler.PollAndSchedule | backend/internal/scheduler/scheduler.go:129-182 | over the batch every acquisition is released with its own token before the next |
| Broker.DeliveryExactly | backend/internal/events/broker.go:33-79 | what a subscriber read and still holds is a subsequence of its offers, all of them unless an offer found it full; the events offered are those its organisation published while it was subscribed, each once |
| Broker.PublicationOrder | backend/internal/events/broker.go:56-79 | if one publication ended before another began, every subscriber is offered, and gets, their events in that order |
| Broker.OrderExactly | backend/internal/events/broker.go:56-79 | as an event is about to be published, an earlier one comes first for a subscriber in whatever follows if and only if it is not still owed to it |
| Broker.OrdersDiffer | backend/internal/events/broker.go:56-79 | two overlapping publications seen in opposite orders by two subscribers |
| Broker.NothingCrosses | backend/internal/events/broker.go:33-79 | no event crosses organisations, no closed channel stays registered, and nothing is sent on a closed channel |
| Broker.OpenExactly | backend/internal/events/broker.go:33-54 | in every run a channel is open exactly as long as it is registered |
| Broker.UnsubscribeCloses | backend/internal/events/broker.go:42-54 | unsubscribing closes the channel, keeps what it holds for its reader, and leaves every other channel alone |
| Broker.OfferToChannel | backend/internal/events/broker.go:72-78 | a non-blocking send keeps the subsequence, dropping only at 64 |
| Broker.PublicationRuns | backend/internal/events/broker.go:56-79 | an uninterrupted publication equals its sends one by one |
| Broker.EventBroker.NewSubscriber | backend/internal/events/broker.go:33-40 | registers one fresh open channel at the end |
| Broker.EventBroker.RemoveSubscriber | backend/internal/events/broker.go:42-54 | the search loop removes and closes the channel, or does nothing |
| Broker.EventBroker.Publish | backend/internal/events/broker.go:56-79 | the loop offers the event to every subscriber of the organisation and to no other |

## Left out

- The scheduler's `active` marking and the queue worker's step execution: a second producer of jobs with status values of its own; `Locks` models only the lock and the exits of its loop.
- Reports without a job id (the manual path), event rows, a contact's `contacted` status, `current_step_id`, `started_at` and `completed_at`: nothing in the pipeline reads them.
- Replacing the steps of a running campaign, deleting contacts and campaigns, and the CSV import.
- Several extension devices in one organisation: the dispatch lock is local to one browser.
- The daily limit as a bound on messages per day: it is checked at the enqueue and recorded at the report, so it is only a gate here.
- The safety breaker, the kill switch and the execution window beyond being gates of the tick.
- What the content script does on the page, its timeout and its tab; a dispatch may end in any report or none.
- LinkedIn.CanonicalLinkedInURL: escapes from %80 up give one character per byte, where the program reassembles UTF-8 text.
- LinkedIn.SpellingDoesNotMatter: letter case is folded for ASCII letters only; the program also lower-cases other letters, and its pattern also takes the Kelvin sign for a k.
- Templates.CollectValues: metadata names are lower-cased in ASCII only.
- Import.RowsExactly: keys and names are put in lower and upper case in ASCII only, which also decides how a name made from a link's slug is capitalised.
- Selecting the records inside an envelope of the JSON file.
- Typing.TypeHumanly: mouse movement, scrolling and the click delay are not part of the loop; a timer may last arbitrarily longer than asked.
- Sessions.SessionStore.HandleRefresh: the user lookup and the signing of the access token appear only as points where the rotation can stop.
- ApiClient.ClientKept: the panel's own sign-in and sign-out code, which also writes the stored tokens, and several tabs sharing one storage.
- Locks.Scheduler.PollAndSchedule: the back-pressure check and the select of eligible rows are its inputs.
- Row-level security, JWT signing, password hashing and the HTTP encoding of requests and answers.
