# Listing pipeline: a verified model

The repository turns WhatsApp broker messages into listings. Most of it is I/O around a language
model and a database; this project models the deterministic loops and state machines in between and
proves what they keep over every input and every run. `dafny verify dfyconfig.toml` checks it all
with Dafny 4.11.

| file | what it models |
|---|---|
| `JsonText`, `JsonGrammar`, `JsonSalvage`, `JsonRecovery`, `JsonPrint` | recovering JSON from model output: the decoder, its grammar as a relation (RFC 8259, sections 2 to 7, with the NaN and Infinity literals `json.loads` accepts), the bracket scanner, the fence, the token-ceiling gate, and a printer with escapes and any white space between tokens |
| `ProviderRotation` | the retry loop over the configured providers, in round-robin and fixed order, with the failed set, the doubled-budget retry, the repair call and the blockwise recursion |
| `WorkerBatches`, `WorkerPool`, `WorkerLane` | the extraction worker: exact-copy batches and lane slots, the two bounded pools as a transition system over arbitrary interleavings, with the extraction cache and the shared claim, and the per-row screening, retries and counters of a lane, chained over a whole store |
| `BrokerBalance`, `ListingPages` | the broker-balanced merge and the pages cut from it |
| `ConversationSpread` | choosing messages from as many conversations as possible |
| `LineSplitters`, `InlineSplitters`, `HeadingRepairs` | the splitters of broadcast messages, over lines and inside one line, and the choice among them |
| `PreferenceMemory` | the recency list the chat agent learns |
| `CoBrokers` | collapsing the rows of one unit into a card with its co-brokers |
| `RateLimiter` | the shared minimum-interval limiter and the counts of a reprocessing run |
| `PriceText`, `PriceGrammar` | the price display form, the explicit-price pattern and the rental reading, and what a text states told from its characters |
| `ShrinkingView`, `BackfillPaging` | offset paging through a view that the run's own writes shrink |
| `FactCrawl` | fact saving that short-circuits at the first change |
| `MessageKeys`, `MessageWords` | the cache key and the author fingerprint of a message, and the words and the banner they come down to |
| `CorrectionRun` | the AI correction pass: one write, and the calls and counters of a run |

`Options`, `Sequences` and `Texts` hold what several of them share.

Code that works step by step is modelled as methods and classes with the same loops and branches,
each proved against a specification function; the lemmas are about those functions. What the
outside decides (a provider's reply, an exception, a clock reading, a schedule, which row a query
returns first) is a parameter, so every statement is over all of its values.

## Where the code does less than it says

Each of these is a theorem with its exact condition, and a smallest case where one helps:

- The paging promise of the listing tool ends at 50 rows, for repeats and for completeness
  (`ListingPages.PagesDisjointIff`, `ListingPages.PagesShowAllIff`).
- Fixed provider order stops at the first provider that failed, live ones behind it or not
  (`ProviderRotation.FixedOrderStops`); two providers of one name count as one
  (`ProviderRotation.AllAskedIffDistinct`); the repair call is not held to the declared count
  (`ProviderRotation.DeclaredCountSurvives`).
- Batching by chat lets a lane extract one body twice, the shared claim notwithstanding
  (`WorkerPool.NeverTwiceIff`, `WorkerPool.ExtractionsAreAccounted`), and so do two lanes that both
  hold it (`WorkerPool.CycleNeverTwiceIff`). A dead-letter write that raises is counted nowhere
  (`WorkerLane.LaneAddsUpIff`).
- The store counts begun attempts, but the typed rows it hands to the worker drop the count
  (`storage/base.py:12-40`), so the retry limit holds for each life of the process only
  (`WorkerLane.RetriesPerRestart`, `WorkerLane.MemoryBoundsIff`). `run_cycle` says as much of
  restarts; a comment at the head of the worker names the wall-clock day of a message as the durable
  limit, which is not part of this model.
- Of several headings in a row before an emoji item, an even number loses them all
  (`HeadingRepairs.RunOfHeadings`); a bare-BHK chunk without a field line keeps the next section's
  heading (`HeadingRepairs.HeadingsSettleIff`). The splitter's docstring says that a split must match
  the number of BHK headers; the code accepts any count for dash splits
  (`HeadingRepairs.DashIgnoresHeaders`, `HeadingRepairs.DashSplitsOneHeader`) and for texts without
  headers, the number of boundaries for numbered splits (`HeadingRepairs.CleanNumberedIsAccepted`),
  headers and section headers together for bare-BHK splits (`HeadingRepairs.CleanBareIsAccepted`),
  one more than the headers for emoji splits of a text with an anchor line, and the number of prices
  for inline-bold splits (`InlineSplitters.BoldShows`).
- A batch of turns is learned with the oldest market in front (`PreferenceMemory.OrdersEqualIff`).
- Every reprocessing run has a fresh limiter (`RateLimiter.FreshLimiterIsSeamlessIff`).
- A small K rent comes back a hundred times too large (`PriceText.RentRoundTripIff`).
- The paging docstring of the backfill relies on a view that only grows; the parsed-output run
  shrinks its own (`ShrinkingView.VisitsAllIff`).
- One crawl saves one changed fact (`FactCrawl.CrawlsNeeded`), and sources that disagree never come
  to rest (`FactCrawl.ComesToRestIff`).
- The cache key takes off one banner more than the fingerprint (`MessageKeys.StackedBanners`,
  `MessageKeys.KeyTellsFingerprintIff`).
- A correction that was only suggested is not reused for a later copy
  (`CorrectionRun.SuggestionsAreNotReused`).

A limit of the code that it does not promise to be without: linking co-brokers in two steps can lose
brokers (`CoBrokers.CollapsedGroupAgreesIff`); the one caller passes fresh rows.

## Model

| member | source | states |
|---|---|---|
| JsonGrammar.LoadsIff | ai_extraction.py:1341-1362 | json.loads answers a value exactly for the texts that spell it by the grammar of RFC 8259, sections 2 to 7, and of the NaN and Infinity literals, with any run of space, tab, line feed and carriage return around it and between its tokens, a number as its own spelling and an escaped surrogate pair as the character it encodes; every other text it refuses |
| JsonGrammar.SpaceIs | ai_extraction.py:1341-1362 | Between tokens the decoder reads past exactly the four characters of RFC 8259, section 2, as far as they go |
| JsonGrammar.ValueIsSound | ai_extraction.py:1379-1392 | Whatever value the decoder reads at a place is spelled by the stretch of text it consumed |
| JsonGrammar.ValueIsComplete | ai_extraction.py:1379-1392 | Conversely, a stretch that spells a value is read as that value and to its end, when nothing behind a number goes on with it |
| JsonText.ShiftValue | ai_extraction.py:1379-1392 | Decoding a value depends only on the characters it spans: the same span elsewhere decodes to the same value at the shifted end, which is what lets a span cut out of prose be compared with the text it stands in |
| JsonSalvage.ValueBalances | ai_extraction.py:1364-1392 | Whatever the decoder reads as an object or array at a position, the bracket scan started there ends exactly at its closing bracket, through strings, escapes and nested brackets |
| JsonSalvage.SpanIsValue | ai_extraction.py:1379-1392 | Conversely, a balanced span that decodes on its own is the value the decoder reads at its opener, ending where the span ends |
| JsonSalvage.ScanIsDecoder | ai_extraction.py:1364-1398 | On every text and from every position the hand-written scan finds the same first value as trying the decoder at each opener in turn |
| JsonSalvage.BalancedSpan | ai_extraction.py:1364-1379 | The inner loop over idx, depth, in_str and esc stops at the end of the first balanced span, or reports none |
| JsonSalvage.FirstDecodedSpan | ai_extraction.py:1364-1392 | The loop over openers returns the first balanced span that decodes, moving on past an opener whose span does not |
| JsonSalvage.ExtractJsonObject | ai_extraction.py:1328-1398 | The whole recovery: strip, peel the fence, decode whole, else the first object, else the first array, else nothing. What decoding is, JsonGrammar.LoadsIff says |
| JsonSalvage.FullJsonDocumentParses | ai_extraction.py:1301-1325 | True exactly when the stripped and unfenced text is one JSON document |
| JsonRecovery.RecoverIsDecoder | ai_extraction.py:1341-1398 | Recovery is: the whole text decoded, else the first object the decoder reads at any brace, else the first array at any bracket, else nothing |
| JsonRecovery.FirstBraceInProse | ai_extraction.py:1364-1398 | A document in brace-free prose yields what its first brace opens, however deep in the document that is, unless the whole text is JSON |
| JsonRecovery.ObjectInProse | ai_extraction.py:1364-1398 | An object comes back exactly, whatever its strings hold and whatever text follows, from behind any prose without a brace, when the whole text is not JSON and not fenced |
| JsonRecovery.ArrayInProse | ai_extraction.py:1364-1398 | An array in brace-free prose yields, of its items, the object in front of which no brace stands, wherever in the array it is, since braces are tried before brackets |
| JsonRecovery.ItemAtReads | ai_extraction.py:1364-1398 | Each item of an array is what the decoder reads at the place where that item begins |
| JsonRecovery.PlainArrayInProse | ai_extraction.py:1364-1398 | An array comes back whole from prose when no brace stands in either and no bracket before it |
| JsonRecovery.CeilingAnswersAreWhole | ai_extraction.py:2587-2617 | A reply that ended at the token ceiling is answered if and only if its text is one closed JSON document, and then with that document |
| JsonRecovery.PrefixNeverDecodes | ai_extraction.py:1301-1325 | No proper prefix of an object or array text decodes as JSON |
| JsonRecovery.CutIsRefused | ai_extraction.py:2587-2617 | A document cut anywhere at the token ceiling is refused (nothing, malformed or truncated): no first item is salvaged |
| JsonRecovery.ClosedIsAnswered | ai_extraction.py:2587-2617 | A document that closed is answered whole whatever the finish reason, the ceiling included |
| JsonRecovery.UngatedCutSalvages | ai_extraction.py:2587-2617 | Why the gate is there: a document cut anywhere behind its first object is answered with that object alone under another finish reason, and refused as truncated at the ceiling |
| JsonRecovery.FencedCutIsWhole | ai_extraction.py:2587-2617 | A document in a markdown fence, cut anywhere at the ceiling, is refused or answered whole |
| JsonRecovery.BlankReplies | ai_extraction.py:2575-2580 | A reply of nothing but what str.strip takes off marks the provider as failed when it finished with an error and is nothing otherwise; no other reply is either |
| JsonRecovery.FencedIsExtracted | ai_extraction.py:1328-1398 | The recovery gives back a fenced document, object or array, with any such characters around the fence, and the probe finds it closed |
| JsonRecovery.FencedIsAnswered | ai_extraction.py:2587-2617 | A document in a fence, with any of the characters around that which str.strip takes off, is answered whole whatever the finish reason |
| JsonRecovery.FencedObjectInProse | ai_extraction.py:1328-1398 | Behind an opening fence line an object comes back, whatever text follows it |
| JsonPrint.PrintedIsDocument | ai_extraction.py:1301-1325 | An object or array printed with any white space between any two tokens decodes to that value with nothing left over |
| JsonPrint.PrintedRoundTrip | ai_extraction.py:1328-1398 | Print and decode: with any run of space, tab, line feed and carriage return behind each token and around the whole, a value is the one json.loads reads from its print, number spellings included, in the raw form for strings without surrogate code points and in the ASCII form, which writes everything beyond ~ as escapes and astral characters as surrogate pairs, for strings without a high surrogate right before a low one |
| JsonPrint.PrintedStringIff | ai_extraction.py:1328-1398 | Any printed string is read back with its surrogate pairs joined into the characters they encode, hence unchanged if and only if it has none |
| JsonPrint.PrintedObjectInProse | ai_extraction.py:1364-1398 | Such an object, printed over any number of lines, comes back through the recovery from inside prose without a brace before it |
| ProviderRotation.ProviderPool.NextProvider | ai_extraction.py:371-380 | Fixed order: the attempt number modulo n; round robin: the pointer, which moves on by one |
| ProviderRotation.ProviderPool.SelectProvider | ai_extraction.py:2970-2979 | The inner loop picks the first candidate that has not failed, within n tries |
| ProviderRotation.ProviderPool.TryProvider | ai_extraction.py:2981-3117 | One attempt: the call, the doubled-budget retry after a truncation, the failed set, the usability test and the single repair call. What that comes to over a run, RunIsItsReplies says |
| ProviderRotation.ProviderPool.AiExtract | ai_extraction.py:2969-3147 | The retry loop as a function of the replies, the pointer it starts from and the pointer it leaves behind |
| ProviderRotation.RunIsItsReplies | ai_extraction.py:2969-3147 | The whole run told from the replies to its calls: each attempt is one call, two when the first is truncated, on the provider whose turn it is, in round robin the nearest one that has not failed; the names that failed are those of the providers whose first call in an attempt failed; the first deciding reply that is an explicitly empty list, or holds items no fewer than declared, ends the run with that provider, and with no items, or its items, or, when some are flagged for review, the items of one more reply if those are fewer flagged and not none; without such a reply the run gives up, for its attempts are spent or nobody is left to ask |
| ProviderRotation.RoundRobinPick | ai_extraction.py:371-380 | Round robin picks the nearest provider that has not failed and moves the pointer just past it; it picks none exactly when all have failed |
| ProviderRotation.RunEnds | ai_extraction.py:2969-3147 | From every state a run reaches: its call bound, and why it gave up |
| ProviderRotation.CallsAreBounded | ai_extraction.py:2969-3147 | No run makes more than 4n + 1 provider calls, a fruitless one no more than 4n, whatever the names; and why it gave up |
| ProviderRotation.UnavailableMeansAllAsked | ai_extraction.py:2969-3147 | With distinct names, ai_unavailable means every provider was called at least once, within the bound on calls |
| ProviderRotation.AllAskedIffDistinct | ai_extraction.py:2969-3147 | That promise holds for all replies if and only if the configured names are distinct |
| ProviderRotation.FixedOrderStops | ai_extraction.py:2969-3147 | In fixed order a fruitless run stops at the first provider that failed in the first rotation, whatever live ones stand behind it |
| ProviderRotation.RoundRobinStops | ai_extraction.py:371-380 | In round robin a pick finds nobody if and only if every provider has failed |
| ProviderRotation.RoundRobinPersists | ai_extraction.py:2969-3147 | Round robin gives up before its attempts are spent only when all providers have failed |
| ProviderRotation.FixedOrderGivesUpOnALiveProvider | ai_extraction.py:2969-3147 | Two providers, the first broken, the second answering only when asked again: fixed order never asks again, round robin does |
| ProviderRotation.DeclaredCountSurvives | ai_extraction.py:3066-3117 | The guard against under-filled replies protects the declared count through the repair call if and only if no item needs review or at most one item was declared |
| ProviderRotation.BlockwiseCalls | ai_extraction.py:2800-2855 | A blockwise extraction of m blocks makes at most m(4n + 1) provider calls |
| ProviderRotation.BlockwiseAllAsked | ai_extraction.py:2800-2855 | It asks every provider about every block it gives up on, wherever earlier blocks left the pointer |
| WorkerBatches.GroupPreLlmRows | extraction_worker.py:200-220 | The batches are a partition of the rows: a permutation in all, one key per batch, no key in two batches, each batch in (timestamp, id) order |
| WorkerBatches.SortBatch | extraction_worker.py:210-220 | The sort of a batch: ordered by (timestamp text, id) and a permutation |
| WorkerBatches.ConfigureSlots | extraction_worker.py:30-118 | The start-up arithmetic on the concurrency and lane settings, step by step, equals the slot plan |
| WorkerBatches.DefaultSplit | extraction_worker.py:97-118 | Without lane settings half of the pool goes to each lane, the odd slot to the backlog, and an only slot to the fast lane |
| WorkerBatches.FastSettingSplit | extraction_worker.py:97-118 | A fast setting alone takes what it asks for, but for one slot that stays with the backlog |
| WorkerBatches.BacklogSettingSplit | extraction_worker.py:97-110 | With a backlog setting the pool grows to what both lanes ask for, up to 100; the backlog is served first and the fast lane gets what it asks for of the rest |
| WorkerBatches.SlotsAreBounded | extraction_worker.py:97-118 | Whatever the settings, both lanes together have at most the configured slots, and those are at most 100 |
| WorkerBatches.SettingsHonouredIff | extraction_worker.py:97-118 | Explicit settings for both lanes are honoured if and only if they are not negative and fit in 100 |
| WorkerBatches.BacklogHasASlotIff | extraction_worker.py:97-118 | Without a backlog setting the backlog lane has a slot if and only if the fast lane does not take the only one |
| WorkerPool.StepIsSafe | extraction_worker.py:756-782 | Every step of every task, in either lane, keeps: at most one success per key in the lane, every success cached, nobody of the lane between a miss and the end of a call on a key that already succeeded |
| WorkerPool.OneSuccessPerLane | extraction_worker.py:768-782 | In every interleaving a lane of exact-copy batches extracts a body successfully at most once, and a cached body never |
| WorkerPool.CycleExtractsOnce | extraction_worker.py:908-914 | Over a whole cycle a body is extracted at most once per lane, so at most twice |
| WorkerPool.CycleNeverTwiceIff | extraction_worker.py:905-914 | A cycle of exact-copy batches extracts no body twice, in any interleaving, if and only if one lane alone runs or no uncached body stands in both; otherwise two extractions happen in some interleaving, even with every shared claim granted in its turn |
| WorkerPool.HandlersAreBounded | extraction_worker.py:97-118 | The handlers at work never exceed the configured concurrency, nor 100, in any interleaving and for any settings |
| WorkerPool.RunsAreBounded | extraction_worker.py:774-782 | Every interleaving is finite: its length is bounded by the work the batches hold |
| WorkerPool.SomeoneCanMove | extraction_worker.py:774-782 | No deadlock: while a row is unhandled some thread can move |
| WorkerPool.NeverTwiceIff | extraction.py:4574-4819 | A lane extracts no body twice, in any interleaving, if and only if it has one thread or its batches share no uncached key; the same condition holds when every call has to be granted a free shared claim, and when it need not be |
| WorkerPool.SharedKeyRaces | extraction.py:4574-4819 | Two batches that share an uncached key and two free threads: an interleaving that extracts the body twice although every claim is granted in its turn, since the second lookup precedes the first store and its claim follows the release |
| WorkerPool.StepAccounts | extraction.py:4574-4836 | Every step keeps the account of a key: the calls in progress never exceed the results still owed, one less while nobody at a call holds the claim of an uncached key |
| WorkerPool.ExtractionsAreAccounted | storage/supabase.py:4348-4420 | Over both lanes and any interleaving a body is extracted at most once, and a cached one not at all, but for one more for each claim granted to a row whose lookup missed before the store, and each call that went ahead on an expired claim or without the claim table |
| WorkerPool.SerializedGroupsCanRepeat | extraction_worker.py:756-767 | The incident mode that batches by chat is such a case: one body in two chats is extracted twice in some interleaving with every claim granted in its turn |
| WorkerLane.Worker.ScreenRow | extraction_worker.py:602-670 | A row is skipped, dead-lettered or passed on, with the counters and the row's state that follow, the failed bookkeeping writes included. What its fate comes to, RowTurned and CountersAre say |
| WorkerLane.Worker.HandleRow | extraction_worker.py:676-754 | The handler: claim, extraction, success, stale claim or failure, with the row, the in-memory failure count and the counters that follow |
| WorkerLane.Worker.ProcessLane | extraction_worker.py:585-782 | Whatever order the pool handles the rows in, every row ends by its own fate, no other row or count changes, and the counters are the counts of the fates |
| WorkerLane.Worker.LaneTurn | extraction_worker.py:585-782 | The lane over rows as the fetch hands them out (not processed, once each, with the attempts the store has counted): the whole store and all counts become what handling those rows one after another gives |
| WorkerLane.RowTurned | extraction_worker.py:602-754 | What a lane leaves of a fetched row: it is ended exactly when it had a reason to be skipped or no attempts left and that write did not raise, or else was stored or found ended by another; only an extraction, stored or not, moves its begun and reached counts, by one; its in-memory count grows by one on a failure and is dropped on success and on a refused claim |
| WorkerLane.RowsEndOnce | storage/supabase.py:4525-4600 | Over any sequence of lane runs and restarts a row is skipped, dead-lettered, stored or found ended at most once in all, and an open row exactly once if it is ended in the end |
| WorkerLane.CountersAre | extraction_worker.py:585-754 | Each counter of a lane is the number of the rows it is meant to count: attempted those that were extracted, processed those stored, failed those whose skip mark raised or whose claim or extraction failed, dead_lettered those without attempts left that were marked so, skipped those marked as skipped or refused by a stale claim |
| WorkerLane.LaneAddsUpIff | extraction_worker.py:585-754 | fetched = stored + failed + skipped + dead-lettered if and only if no dead-letter write raised; attempted lies between stored and stored + failed + skipped |
| WorkerLane.RetriesAreBounded | extraction_worker.py:655-670 | Where the fetched rows carry the number of their begun attempts, every row reaches the extractor at most MAX_RETRIES times, over any lane runs, failures, stale claims and restarts. The rows of the repository's own store do not carry it: the typed row drops the column |
| WorkerLane.RetriesPerRestart | storage/base.py:519-525 | For rows without that number, which is what the typed fetch hands out, every row reaches the extractor at most MAX_RETRIES times for each life of the process, (restarts + 1) * MAX_RETRIES in all, when a claim is refused only for rows that another has ended |
| WorkerLane.RetriesPerRestartAttained | extraction_worker.py:676-754 | That bound is reached by any open row of any store, for every number of restarts and every limit: a restart reopens the retries |
| WorkerLane.TerminalRowsStay | storage/supabase.py:4525-4600 | Since the fetch asks for unprocessed rows, an ended row keeps its state over any sequence of lane runs and restarts |
| WorkerLane.MemoryBoundsIff | extraction_worker.py:676-754 | Without that number the in-memory counts keep every row within the limit if and only if the process does not restart, no extraction reports its row away and no claim is refused on a row that stays open; or the limit is 0; or it is 1 and only the last of the three happens |
| WorkerLane.StaleClaimsForgive | extraction_worker.py:709-717 | Were a claim refused on a row that stays open, which the claim function of the schema does only for ended rows, failing and losing the claim, n times over, would send any open row to the extractor n times and leave no count behind, for any limit of two or more |
| WorkerLane.LateRefusalsForgive | extraction_worker.py:709-717 | An extraction that reports its row away after the claim drops the count and leaves the row open: n times over, the row reaches the extractor n times, for any limit of at least one |
| BrokerBalance.FillBuckets | agent_tools.py:526-530 | Filling the dict of queues: the keys in first-seen order, each queue the broker's rows in order |
| BrokerBalance.DrainRound | agent_tools.py:531-538 | One pass over a snapshot of the keys takes one row from each queue and deletes those that run empty, keeping the order of the rest |
| BrokerBalance.Balance | agent_tools.py:526-538 | The whole nested loop terminates and yields the round-robin merge |
| BrokerBalance.BalancedPermutes | agent_tools.py:526-538 | The merge is a permutation of the rows |
| BrokerBalance.BalancedKeepsBrokers | agent_tools.py:526-538 | It keeps each broker's rows, all of them, in their own order |
| BrokerBalance.PrefixIsFair | agent_tools.py:526-538 | In every prefix a broker leads another by at most one row unless the other is exhausted; one seen earlier is never behind unless exhausted itself |
| BrokerBalance.BalancedIsTheSort | agent_tools.py:526-538 | An output is the merge if and only if it keeps every broker's rows and is sorted by (rank within broker, first-seen order): the closed form, and its uniqueness |
| ListingPages.TruncatedMerge | agent_tools.py:495-501 | Cutting each table to the fetch limit before the merged sort loses nothing of the window |
| ListingPages.ListingQuery | agent_tools.py:429-538 | The query returns the page that its arguments come to, which QueryRows and QueryClamps tell from the arguments themselves |
| ListingPages.QueryRows | agent_tools.py:429-538 | For an offset from 0 on and a limit from 1 to 50, row i of the answer is row offset + i of the balanced newest rows, of which at least 50 and at most 1000 are looked at; and limit rows come, or as many as are left |
| ListingPages.QueryClamps | agent_tools.py:429-434 | A negative offset answers as 0, a limit of 0 as 10, a negative limit as 1 and one above 50 as 50 |
| ListingPages.QueriesTile | agent_tools.py:429-434 | Within the first 50 rows the answers to two successive queries join to the answer to one query for both |
| ListingPages.MergeIsTheSort | agent_tools.py:495-501 | The merged tables are the one list that stands newest first with listings of one age in the order of rents before sales and of each table: what the stable sort gives; and it holds the rows of both |
| ListingPages.EarlyPage | agent_tools.py:500-538 | A page that ends within 50 rows is a slice of the one balanced list |
| ListingPages.EarlyPagesTile | agent_tools.py:429-434 | So such pages join up without gap or overlap, as the tool promises |
| ListingPages.PagesDisjointIff | agent_tools.py:500-538 | Consecutive pages are disjoint on every database if and only if they are cut from one window or the first is the single newest row |
| ListingPages.GrownWindowRepeats | agent_tools.py:500-538 | Once the windows differ, a database on which the next page repeats a row |
| ListingPages.HiddenRow | agent_tools.py:500-538 | A row just past the first window that no page from the second row on, and no early page, ever shows |
| ListingPages.PagesShowAllIff | agent_tools.py:431-436 | Following the pages of one size shows every row of every database of n rows without repeats if and only if n is at most 50 |
| ConversationSpread.SelectRows | agent_tools.py:730-751 | The two loops: first rows that open a new conversation until the limit, then the remaining rows in rank order |
| ConversationSpread.SpreadIs | agent_tools.py:730-751 | The selection is, in this order, the best-ranked row of each conversation in rank order, and then, in the places left, the other rows in rank order; of both the best-ranked ones, as far as the limit goes |
| ConversationSpread.SpreadCovers | agent_tools.py:730-751 | The selection comes from as many conversations as there are, up to the limit |
| ConversationSpread.NoChoiceSpreadsFurther | agent_tools.py:730-751 | No choice of as many rows covers more conversations |
| ConversationSpread.BestOfEach | agent_tools.py:730-744 | Of every covered conversation the best-ranked row is selected |
| ConversationSpread.SpreadFills | agent_tools.py:745-751 | Every place is filled while rows are left, and no row is selected twice |
| LineSplitters.SplitOnPredicate | deterministic_splitters.py:372-383 | The loop with the running chunk yields the pieces that start at the lines satisfying the predicate, trimmed, the blank ones dropped |
| LineSplitters.PiecesConserve | deterministic_splitters.py:372-383 | The pieces joined are the lines again |
| LineSplitters.PiecesArePieces | deterministic_splitters.py:372-383 | Every piece but the first opens with a line satisfying the predicate, and no other line of it does |
| LineSplitters.CountPieces | deterministic_splitters.py:372-383 | There are as many pieces as lines that satisfy the predicate, when the first one does |
| LineSplitters.SplitDashSeparator | deterministic_splitters.py:386-401 | The dash splitter: the evidence-bearing chunks between separator lines, or none without a separator |
| LineSplitters.DashSplits | deterministic_splitters.py:386-401 | Of the longest runs of lines between separators exactly those that show evidence are the chunks, trimmed of blank lines, in order |
| LineSplitters.DashConserves | deterministic_splitters.py:386-401 | Before the evidence filter every line but separators and blanks is in exactly one chunk, in order |
| LineSplitters.SplitNumbered | deterministic_splitters.py:405-423 | The numbered splitter: the evidence-bearing chunks from the first number on |
| LineSplitters.NumberedSplits | deterministic_splitters.py:405-423 | Of the pieces from the first numbered line on, each up to the next number or section header, exactly those that hold text and show evidence are the chunks, trimmed, in order |
| LineSplitters.NumberedConserves | deterministic_splitters.py:405-423 | Before the filter every line from the first number on is in exactly one chunk, in order |
| LineSplitters.NumberedCountIff | deterministic_splitters.py:666-682 | The chunk count meets the number of boundaries if and only if no item lacks evidence and no section header stands above the first number |
| InlineSplitters.SplitRunOn | deterministic_splitters.py:554-574 | The run-on splitter: slices between the listing starts of a text without line breaks, stripped, and refused altogether when one is empty or has no price |
| InlineSplitters.RunOnSplitsIff | deterministic_splitters.py:554-574 | A run-on inventory is split if and only if it is one line with two listing starts or more and, separators taken off, text with a price stands between each start and the next and behind the last |
| InlineSplitters.RunOnConserves | deterministic_splitters.py:560-574 | A run-on split gives every listing start one priced chunk: the text from there to the next start, but for the separators around it |
| InlineSplitters.FindBoundaries | deterministic_splitters.py:601-615 | The loop that keeps a bold name unless it belongs to the last boundary before it |
| InlineSplitters.BoundariesAre | deterministic_splitters.py:601-615 | The first name is a boundary; a name that is none follows a boundary with a configuration and no price in between; between a boundary with a configuration and the next boundary stands a price |
| InlineSplitters.SplitInlineBold | deterministic_splitters.py:577-636 | The inline-bold splitter: names, boundaries, slices, the evidence filter, the count of prices and the shared header behind every chunk |
| InlineSplitters.BoundsAreNames | deterministic_splitters.py:590-614 | The text is cut at bold spans of six words at most that are a configuration or no decoration; every other such span belongs to one of these |
| InlineSplitters.BoldSplits | deterministic_splitters.py:577-636 | Of the stretches between boundaries exactly those that show evidence are the chunks, in order, each with the shared header behind it; and the text is split if and only if it has two prices or more and as many such stretches |
| InlineSplitters.BoldConserves | deterministic_splitters.py:617-623 | Before the filter every boundary has its own chunk: the text from there to the next boundary, but for the white space around it |
| InlineSplitters.BoldShows | deterministic_splitters.py:624-636 | An accepted inline-bold split has as many chunks as the text has prices, at least two, and each shows evidence before the shared header is put behind it |
| HeadingRepairs.FindCut | deterministic_splitters.py:520-541 | The scan for the last field line and the headings finds the first section heading after the last field |
| HeadingRepairs.CarryHeadings | deterministic_splitters.py:514-545 | The loop with its carried prefix equals the closed form: each chunk is what the one before it carried and what it keeps itself; the last keeps all |
| HeadingRepairs.CutShift | deterministic_splitters.py:514-541 | Carried lines hold no field, so they never move the next cut: no line is carried twice |
| HeadingRepairs.CarriedConserves | deterministic_splitters.py:487-547 | Carrying loses, repeats and reorders no line |
| HeadingRepairs.FieldsStay | deterministic_splitters.py:514-545 | Each chunk keeps exactly the field lines of its own property |
| HeadingRepairs.HeadingsSettleIff | deterministic_splitters.py:514-545 | A chunk but the last ends with a section heading behind its fields if and only if it has no field line and has, or was carried, a heading |
| HeadingRepairs.SplitBareBhk | deterministic_splitters.py:487-551 | The bare-BHK splitter: start indices, slices, carried headings, the evidence filter and the refusal of crowded chunks |
| HeadingRepairs.BareSplits | deterministic_splitters.py:487-551 | Of the carried chunks exactly those that show evidence are the answer, in order; there is none when one of these holds two counted lines or fewer than two lines start a listing |
| HeadingRepairs.BareConserves | deterministic_splitters.py:487-547 | Before the filter: one chunk per header line, with every line from the first header on exactly once and in order, and in each chunk its own header line and no other |
| HeadingRepairs.RepairHeadings | deterministic_splitters.py:455-468 | The index loop joins a heading-only chunk to the next one |
| HeadingRepairs.RepairConserves | deterministic_splitters.py:455-468 | Joining loses and reorders no line |
| HeadingRepairs.RunOfHeadings | deterministic_splitters.py:451-473 | Of k headings in a row before a property the last one reaches it if and only if k is odd; the others are paired off and dropped by the filter |
| HeadingRepairs.SplitEmojiBullet | deterministic_splitters.py:426-484 | The emoji splitter: the first glyph that gives two evidence-bearing chunks wins, with the preamble inherited if it carries context |
| HeadingRepairs.EmojiPieces | deterministic_splitters.py:429-450 | For a glyph, the pieces before the repair are told from the lines: from the first line with the glyph on, each up to the next line with it, listing header or anchor line, as far as they hold text |
| HeadingRepairs.EmojiForSplits | deterministic_splitters.py:436-483 | For a glyph there is a split exactly when two lines or more carry it and two repaired chunks or more show evidence; these are its chunks, in order, each behind the lines before the first glyph if those carry context |
| HeadingRepairs.EmojiIsFirst | deterministic_splitters.py:428-484 | The emoji split is that of the first of the seven glyphs that has one |
| HeadingRepairs.EmojiConserves | deterministic_splitters.py:442-468 | Before the filter every line from the first glyph on is in exactly one chunk, in order |
| HeadingRepairs.SplitMessage | deterministic_splitters.py:639-700 | The first accepted pattern in the order tried, with its chunks; a short text gives none |
| HeadingRepairs.TriedOnce | deterministic_splitters.py:665-666 | Whatever the preference, every pattern is tried exactly once, the preferred one first |
| HeadingRepairs.PreferenceOnlyOrders | deterministic_splitters.py:639-700 | A preference changes which accepted pattern is chosen, never whether one is; an accepted preference wins |
| HeadingRepairs.AcceptedShows | deterministic_splitters.py:639-700 | Any accepted split, by whichever of the six patterns, has at least two chunks, each holding a BHK, a price or an area |
| HeadingRepairs.CleanBareIsAccepted | deterministic_splitters.py:487-551 | A bare-BHK broadcast whose chunks all show evidence and are not crowded, with no header of both kinds, is accepted with one chunk per header of either kind |
| HeadingRepairs.CleanNumberedIsAccepted | deterministic_splitters.py:405-423 | A numbered broadcast whose items all show evidence, with no section header above the first number, is accepted with one chunk per boundary |
| HeadingRepairs.AcceptedIff | deterministic_splitters.py:670-697 | The exact chunk counts each of the six patterns is accepted with, by the numbers of BHK headers, of section headers, of numbers and section headers, and of prices, told from the lines; and that a bare-BHK split is accepted only uncrowded, an emoji split of one chunk more only with an anchor line |
| HeadingRepairs.DashIgnoresHeaders | deterministic_splitters.py:639-700 | A dash split is accepted if and only if it has two chunks or more, whatever the number of BHK headers: the docstring's count rule does not bind it |
| HeadingRepairs.DashSplitsOneHeader | deterministic_splitters.py:639-700 | A text of a header, a dash line and another line with evidence: one BHK header, two chunks, accepted |
| PreferenceMemory.MergeMarkets | ai_chat_engine.py:326-341 | The remove-and-insert loop with the cut at five is the truncated move-to-front merge |
| PreferenceMemory.TouchedIs | ai_chat_engine.py:334-341 | Without the bound: what is learned stands in front, newest first, each once, and what was known follows in its old order |
| PreferenceMemory.StackProperty | ai_chat_engine.py:326-348 | Cutting to five after every turn keeps what cutting once at the end would keep, over any sequence of turns |
| PreferenceMemory.TurnsBounded | ai_chat_engine.py:326-348 | After any turns the markets are free of duplicates and both lists have at most five entries |
| PreferenceMemory.BatchIsReversed | ai_chat_engine.py:437-451 | Learning a batch yields the markets of learning its turns one by one, but with the learned block turned round: the oldest in front |
| PreferenceMemory.BatchKeepsTheSame | ai_chat_engine.py:437-451 | The two ways keep the same set of markets and the same scalar constraints |
| PreferenceMemory.OrdersEqualIff | ai_chat_engine.py:437-451 | The two orders are equal if and only if the batch names at most one market |
| PreferenceMemory.BatchForgetsTheNewest | ai_chat_engine.py:437-451 | After a batch of five markets the next new market evicts the one mentioned last, where turn by turn it stays |
| PreferenceMemory.BatchTidy | ai_chat_engine.py:326-348 | A stored row never outgrows five markets and five snapshots of at most five snapshots each |
| PreferenceMemory.SnapshotsAre | ai_chat_engine.py:344-346 | The snapshots of a merge are what was learned and behind it those there were, at most five in all |
| PreferenceMemory.ScalarIsTheLast | ai_chat_engine.py:341-343 | A scalar is what the last turn that sets it says |
| PreferenceMemory.ScalarStays | ai_chat_engine.py:341-343 | And what it was if no turn sets it |
| PreferenceMemory.SpokenIs | ai_chat_engine.py:437-451 | A batch has no text exactly when every turn of it is blank |
| PreferenceMemory.SpokenJoins | ai_chat_engine.py:437-451 | The texts of two batches in a row are those of the first and then those of the second |
| PreferenceMemory.PreferenceStore.Update | ai_chat_engine.py:437-451 | The store after an update: one tenant's row becomes the batch merge, blank turns and a missing tenant change nothing, and every row stays within its bounds |
| CoBrokers.LinkInventory | ai_chat_engine.py:2384-2424 | The two loops over groups and emitted keys yield the linked list, whose cards KeyedCardIs tells from the rows |
| CoBrokers.KeyedCardIs | ai_chat_engine.py:2384-2424 | Linking fresh rows: the card with a key is the first row of that key apart from its co-brokers; every broker named on any row of that key is its own or stands exactly once among them, in order of first mention, and nobody else does; the count is the number of brokers named; and it is dressed exactly when another broker is named |
| CoBrokers.CardNamesEveryBroker | ai_chat_engine.py:2401-2422 | Every named broker of a group is the primary or exactly one of the co-brokers, nobody else is, and broker_count is the number of distinct named brokers |
| CoBrokers.CardsInOrder | ai_chat_engine.py:2393-2424 | The cards come from increasing places of the rows, so keys stand in first-seen order, and rows without a key pass through unchanged |
| CoBrokers.CardsDiffer | ai_chat_engine.py:2397-2400 | No key stands on two cards |
| CoBrokers.RowHasCard | ai_chat_engine.py:2384-2424 | Every row has its card: that of its key, or itself |
| CoBrokers.LinkIsIdempotent | ai_chat_engine.py:2384-2424 | Linking what is linked changes nothing |
| CoBrokers.CollapsedGroupAgreesIff | ai_chat_engine.py:2384-2424 | Adding rows to a collapsed group gives the card of the whole group if and only if the card named no co-broker, the rows bring none, or they start by naming all its co-brokers again in order |
| CoBrokers.LinkedTwiceForgets | ai_chat_engine.py:2384-2424 | Three brokers of one unit, two linked first: the second broker is lost from the card |
| RateLimiter.Limiter.Wait | extraction_reprocessing_worker.py:66-83 | The delay is the distance to the next reserved start, as a function of all clock readings so far; without a rate there is none |
| RateLimiter.StartIsLatest | extraction_reprocessing_worker.py:73-83 | The i-th reserved start is the latest of all now_j + (i - j) intervals, and of i intervals after zero |
| RateLimiter.StartsAreSpaced | extraction_reprocessing_worker.py:73-83 | Starts are at least one interval apart |
| RateLimiter.StartsAreEarliest | extraction_reprocessing_worker.py:73-83 | The limiter's schedule is feasible, and no feasible schedule starts anyone earlier |
| RateLimiter.WindowBound | extraction_reprocessing_worker.py:66-83 | A window of length w holds at most floor(w / interval) + 1 starts |
| RateLimiter.BurstFillsWindow | extraction_reprocessing_worker.py:66-83 | A burst reaches that bound |
| RateLimiter.FreshLimiterIsSeamlessIff | extraction_reprocessing_worker.py:220-230 | Two runs with a limiter each give the starts of one limiter if and only if the second begins at least one interval after the last start of the first |
| RateLimiter.RunOnce | extraction_reprocessing_worker.py:202-245 | Every count of a run is the number of jobs with that outcome; attempted is their sum, and one more when a job raised |
| RateLimiter.JobEnds | extraction_reprocessing_worker.py:129-170 | How a job ends, told from what it meets: failed if reading, extracting or writing its outcome raises, else expired, without source, fixed or still unresolved; and it raises exactly when it fails and the write of that fails too |
| RateLimiter.CountIs | extraction_reprocessing_worker.py:224-230 | The count of an outcome is the number of jobs that end with it |
| PriceText.DisplayReads | ai_extraction.py:2440-2464 | A printed amount reads back as exactly the hundredths and the unit that were printed |
| PriceText.PriceRoundTrip | price_normalization.py:79-119 | Print and parse: an amount of a thousand or more comes back to within half a hundredth of its printed unit, roundings up to the next unit included |
| PriceText.SmallPriceIsNotRead | price_normalization.py:79-99 | An amount below a thousand is printed without a unit and not read as a price |
| PriceText.RentRoundTripIff | price_normalization.py:121-155 | Read as a rent, the round trip holds if and only if the amount was not printed as a K value with a decimal point below five; that one comes back at h * 1000 for h printed hundredths |
| PriceText.LargestUnit | ai_extraction.py:2440-2464 | An amount is printed in the largest unit it comes to at least one of, and below a thousand in none |
| PriceText.MonthlyIff | ai_extraction.py:2458-2464 | Exactly the rents above zero and below a crore are printed with /month |
| PriceGrammar.PriceIsTheFirst | price_normalization.py:79-119 | Any text is read by the first price it states: a numeral of digits and commas, perhaps a point and decimals, a gap and one of the unit words, told from its characters; in rupees, a numeral grouped by commas that is a lakh by itself not multiplied by a lakh spelled out; and a price of commas alone is passed over for the value handed over |
| PriceGrammar.NoPrice | price_normalization.py:79-119 | A text that states no price anywhere is read as the value handed over |
| PriceGrammar.CommasAreIgnored | price_normalization.py:83-90 | A comma in a numeral is as if it were not there |
| PriceGrammar.RentIsTheFirst | price_normalization.py:121-155 | A rent is read by the first decimal K of its text if that is below 5, as so many lakhs; else like any price, but for a bare number below a thousand handed over for a text that speaks of rent, which is taken for thousands |
| PriceGrammar.RentOtherwise | price_normalization.py:121-155 | So it is in a text without a decimal K |
| PriceText.StandingMatch | price_normalization.py:21-25 | The price pattern on a standing number: digits, decimals, gap and unit word, in any text around them |
| PriceText.OnlyShorthand | price_normalization.py:134-138 | The decimal-K shorthand of a text with a single number is that number exactly when it has decimals and the word is k |
| ShrinkingView.SweepSkipsWhatItRemoves | backfill_localities.py:577-679 | Sweeping a page moves the rest of the view forward by the rows it removed, so the next page starts that much further on in the first view |
| ShrinkingView.VisitsAllIff | backfill_localities.py:577-679 | A run visits the whole view if and only if no page with rows behind it loses a row to the run's own writes |
| ShrinkingView.QuietRunVisitsAll | backfill_localities.py:386-473 | If nothing leaves the view, every row is visited exactly once, in order |
| BackfillPaging.TurnIs | backfill_localities.py:604-675 | What a turn does to a row: where the resolver decided and the row has no market or is to be overwritten, no dry run is on and the write does not raise, the market becomes the resolver's, and in a parsed run a location without text becomes the span found, if any; nothing else changes |
| BackfillPaging.CountersAre | backfill_localities.py:604-675 | The counters of a run are the numbers of the visited rows that wanted a market, that were passed over for a low confidence, and whose write raised; the rest was updated or skipped |
| BackfillPaging.QuietModes | backfill_localities.py:386-473 | So it is for listings, and for any dry run |
| BackfillPaging.FilledRowHidesTheNext | backfill_localities.py:577-679 | The smallest loss: the first of two rows is filled, and the second is never visited |
| BackfillPaging.RemovedIff | backfill_localities.py:577-679 | A row leaves the view if and only if it was written in a writing parsed run and has a location then |
| BackfillPaging.Database.HandleRow | backfill_localities.py:604-675 | One row: the counter it moves and the row it writes, by verdict, existing value, confidence, dry run and write error |
| BackfillPaging.Database.Run | backfill_localities.py:559-679 | A run visits exactly the walk over the first view, its counters are the tally of the visited rows, and the table is the old one with the turns of those rows taken |
| BackfillPaging.CountersAddUp | backfill_localities.py:419-470 | scanned = eligible + skipped_existing + skipped_low_confidence and eligible = updated + errors, over any visited rows |
| BackfillPaging.RunKeeps | backfill_localities.py:604-668 | No market that was set changes without overwrite, no location with text changes, a dry run changes nothing, over any run |
| FactCrawl.ProjectStore.SaveFacts | developer_projects.py:264 | any(...) over the saves stops at the first fact that changed: that one is stored, those behind it are not looked at |
| FactCrawl.ProjectStore.Crawl | developer_projects.py:242-265 | All sources of a project in order, and whether any of them changed a fact |
| FactCrawl.CrawlSavesOne | developer_projects.py:264-265 | A crawl of one source lowers its number of stale facts by exactly one, until there are none, and reports a change exactly then |
| FactCrawl.CrawlsNeeded | developer_projects.py:264-265 | n stale facts need exactly n crawls; only then does the store say what the source says |
| FactCrawl.DisputedIsNeverQuiet | developer_projects.py:242-265 | Sources that disagree report a change on every crawl, from every store |
| FactCrawl.QuietInTime | developer_projects.py:242-265 | Once there have been as many crawls as there were stale facts, sources that agree report no change |
| FactCrawl.AgreedBecomesQuiet | developer_projects.py:242-265 | Sources that agree are quiet at the latest after as many crawls as there are stale facts, and stay quiet |
| FactCrawl.ComesToRestIff | developer_projects.py:242-265 | From any store the crawls of fixed sources come to rest if and only if the sources agree |
| FactCrawl.DisputeStarves | developer_projects.py:242-265 | Two sources that open with different values of one fact revert each other for ever, and the facts behind are never saved |
| MessageWords.NormalIsWords | extraction_dedup.py:39-52 | The normal form is the words of the text behind its banner, zero-width characters left out, in lower case and single spaced |
| MessageWords.ZeroWidthIsIgnored | extraction_dedup.py:39-52 | A zero-width character anywhere is as if it were not there |
| MessageWords.BannerIff | extraction_dedup.py:33-36 | The banner that is taken off is the one that stands at the head of the text: white space, perhaps arrows, forwarded, forwarded many times, fwd or fw in any case, perhaps a colon or a dash, and white space, each as far as it goes |
| MessageWords.FingerprintIsWords | message_identity.py:71-81 | Two texts of one author share a fingerprint if and only if they hold the same words behind their banners, whatever the case and the white space; there is none without an author or such words |
| MessageKeys.NormalIsCanon | extraction_dedup.py:39-52 | The normal form has no zero-width character, no capital, single spaces and no space at either end |
| MessageKeys.NormalOfCanon | extraction_dedup.py:39-52 | Normalising a normal form takes off one forward banner and nothing else |
| MessageKeys.CacheKeyIs | extraction_dedup.py:156-160 | The cache key is the normal form with a second banner taken off, and the version: no banner reaches across the line break before the version |
| MessageKeys.SameKeyIff | extraction_dedup.py:156-160 | Two texts share a cache key if and only if they are equal once normalised twice |
| MessageKeys.FingerprintRefinesKey | message_identity.py:71-81 | For one author, equal fingerprints imply equal cache keys |
| MessageKeys.SameExceptForBanners | message_identity.py:71-81 | For two texts whose normal forms carry no further banner the converse holds too; a text with one banner left shares its key with its own normal form, under another fingerprint |
| MessageKeys.KeyTellsFingerprintIff | message_identity.py:71-81 | On a set of texts closed under normalisation keys tell apart exactly what fingerprints tell apart if and only if no text of the set has a banner left in its normal form |
| MessageKeys.EveryKeyIsShared | extraction_dedup.py:156-160 | Every text with a fingerprint shares its cache key with a text that has another fingerprint |
| MessageKeys.StackedBanners | message_identity.py:71-81 | A text under k and under j banners: equal fingerprints if and only if k and j agree after taking one off, equal keys if and only if they agree after taking two off |
| CorrectionRun.CorrectionLayer.WriteCorrection | correction_layer.py:250-319 | The loop over the flagged fields writes the applied ones, keeps the earlier suggestions and adds the rest to them, and marks the row |
| CorrectionRun.WriteIs | correction_layer.py:250-319 | All of what a write does: a column becomes the proposed value exactly when it was flagged, is grounded by the source and is empty or outscored by more than 0.15, and stays otherwise; the fields taken are those the mark names, in order, under this hash and confidence; the other flagged fields become new suggestions, in order, behind the old ones |
| CorrectionRun.ReusedOnlySuggests | correction_layer.py:206-221 | A correction read back from the store flags exactly what it had applied as far as it differs from the new draft, and, unless the guards ground a field again, writing it changes no column |
| CorrectionRun.AgainOnlySuggests | correction_layer.py:470-480 | So it is for a correction made earlier in the same run, with the fields it had flagged |
| CorrectionRun.NoneIsLost | correction_layer.py:267-302 | Every flagged field is applied or suggested, none twice, each by the rule |
| CorrectionRun.WriteIsCautious | correction_layer.py:267-302 | A column changes only if flagged and source-grounded, a populated one only if the correction is more than 0.15 more confident, and earlier suggestions stay |
| CorrectionRun.SuggestionsAreNotReused | correction_layer.py:480-489 | A later copy with the same draft gets from the store exactly the fields that were applied and changed something: a suggestion is not made again |
| CorrectionRun.CorrectionLayer.Correct | correction_layer.py:468-532 | One candidate: reuse from the run or the store, else a call within the cap, else the stop; with the counters, the cache and the store that follow, and in the row of the candidate what a write makes of its guarded payload |
| CorrectionRun.TakenIs | correction_layer.py:505-532 | What a candidate is counted as corrected by: the fields the correction may take, in a dry run all it flags, in order |
| CorrectionRun.CorrectionLayer.Run | correction_layer.py:443-540 | A completed run: corrected + skipped = selected, calls + reused = processed, calls <= cap, an early stop only at the cap. Any run: no key called for twice, not even across runs, the corrected ones counted by the fields their writes took, every payload traced to the model's answer, an earlier copy or the store, and the table changed by the writes of these payloads alone |
| CorrectionRun.RunIsCautious | correction_layer.py:443-540 | Over a run a column changes only in the row of a candidate, to the value its guarded payload proposes, if that flags and grounds the field, and over a value only if it outscores the model |

## Left out

- Supabase and PostgREST queries, HTTP, browser automation, prompts, logging, heartbeats, threads' actual scheduling and the model calls themselves: they appear as parameters, maps and nondeterministic steps only.
- JsonText.Value: the decoder's recursion limit, its limit on digits of an integer, the byte-order mark and the collapse of duplicate keys in the resulting dict are not modelled; numbers keep their spelling instead of becoming floats.
- The `_call_provider` steps before the response arrives (cooldowns, sessions, budgets, the request itself): a reply is a parameter.
- ProviderRotation.ProviderPool.AiExtract: one thread; two threads sharing the round-robin pointer are not modelled. Normalisation of items is a parameter, and the building-alias cache in front of the loop is not modelled.
- WorkerLane.RetriesPerRestart: the clean-up that ends queued messages after 24 hours is not part of this model.
- WorkerLane.Worker.ProcessLane: rows that another process ends between the fetch and their screening are not modelled, except through a refused claim; latencies and the per-reason skip counts are not counted, and the exceptions that `finish_attempt` itself could raise inside the failure path are not modelled. The screening reasons (protocol event, own message, chatter, market scope) are one optional reason per row.
- WorkerPool.CycleExtractsOnce: the cache is a set of keys that a successful call fills in one step; a store that fails silently is not modelled. Claiming a body, and taking an expired claim over, are one step each; claims of other processes are those held by rows outside the two lanes. The author fingerprint's own claim, which stops a repost before the cache is asked, is not part of this model.
- Group consent and tenant selection (`_group_policy_snapshot`, `_row_has_group_consent`): membership tests over fetched tables, which would add only easy members.
- ListingPages.ListingQuery: filters and per-row formatting are left out; ages are integers, newest first, and broker keys are numbers.
- ConversationSpread.SelectRows: ranking, locality matching and the asset filter in front of it are left out; rows have distinct ids.
- The regular expressions of the splitters: a line carries the booleans they would answer, chunk evidence is a function of the chunk, and the splitters inside one line take the positions of the matches and a price search as given. HeadingRepairs.AcceptedShows takes as given that a price is evidence and that text around a text hides none. Line separators other than the line feed are not modelled.
- HeadingRepairs.RunOfHeadings: takes as given that two headings joined still show no BHK, price or area.
- PreferenceMemory.PreferenceStore.Update: the five-minute read cache and the storage errors that are swallowed are left out; markets are taken as already stripped and not blank.
- CoBrokers.LinkInventory: a broker stands for the digits of the phone or the folded name; the spelling shown in the card is not modelled, nor is the building vocabulary behind the key.
- `ConversationMemory`, `_extract_market_localities` and the rendering of preferences: single-branch code or vocabulary.
- RateLimiter.Limiter.Wait: seconds are reals, and the sleep itself is not modelled.
- PriceText.PriceRoundTrip: amounts are reals and "%.2f" is rounding to nearest with ties either way; Unicode digits and letters that match the pattern case-insensitively are left out, as are the commercial-rent and package readings.
- PriceGrammar.PriceIsTheFirst: of white space only the space, tab, line feed and carriage return are known, and digits, letters and word characters are ASCII.
- BackfillPaging.Database.Run: rows have distinct ids and a write reaches its own row only; the resolver's verdict on a row is a parameter and does not depend on earlier writes. The audit file is not modelled. The unreachable second body after the return in `_apply_listings` is not modelled.
- FactCrawl.ProjectStore.Crawl: every source is reached; a failed crawl would skip its source. Evidence rows, publication status and building links are not modelled.
- MessageKeys.CacheKeyIs: characters are ASCII plus the zero-width set; NFKC, full case folding and Unicode white space are left out. The skip filter's vocabulary, the tenant column and the shared cache's payload stripping are not modelled.
- CorrectionRun.CorrectionLayer.Run: the schema check of a response appears as a trouble that raises, and the shared guards as an arbitrary function on the payload; token costs, the status file and the scheduled-run claim are left out.
- Field normalisers, alias and range tables, embedding, deduplication scoring, confirmation tokens and browser policy: no loop or state machine of their own.
