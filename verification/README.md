# rusty-sched, modelled and proved

rusty-sched is a job scheduler: a tick loop fires due jobs, jobs claim units of
virtual resources, a bounded queue hands runs to tasks that execute and retry
them, and jobs can wait for a condition over the history of others. This
project models its logic in Dafny and proves what the program keeps in every
state and on every input.

`dafny verify dfyconfig.toml` checks the whole project.

## How the model is built

- **Dependency graph** (`Dag`): the depth-first search as a class with its two
  node sets, over an arbitrary adjacency map and in any key order.
- **Webhook replay cache** (`Dedup`, `DedupHistory`): the cache as a class;
  its histories as sequences of calls, compared with a map without limit.
- **Conditions** (`Condition`, `Decimal`, `ConditionParser`,
  `ConditionCursor`, `ConditionGrammar`, `ConditionAccepts`,
  `ConditionDerives`, `ConditionRoundTrip`, `ConditionErrors`): the printer;
  the parser twice, as a function and as the cursor-moving class that the
  program has, each method proved equal to its function; and a grammar of
  concrete texts with a meaning, in which `or` and `and` group to the left, that
  the parser is proved to decide. The grammar has the words, operators, limits
  and character classes written out and takes nothing from the parser.
- **Evaluation** (`Evaluator`, `RunHistory`, `RunWindows`, `BoxRollup`):
  three-valued evaluation, the snapshot of run history behind it, what its
  tests and counts say of the rows of the run table, and the box rollup.
- **Back-off** (`Backoff`) and **logs** (`LogStore`, `LogTail`): the capped
  writer as a class, and a paging reader in every interleaving with it.
- **JIL** (`JilText`, `JilSpecs`, `JilBlocks`, `JilSegments`, `JilJoins`,
  `JilWitness`): comment stripping, what attributes are built into, block
  segmentation, and what two texts give together. A specification is a map
  from field names to values, with the warnings; a field that is `None` in the
  program is not in the map.
- **JIL as it is written** (`JilGrammar`, `JilReads`, `JilLayout`,
  `JilAccepts`, `JilPrinter`): a grammar of JIL texts with their meaning, told
  without the parser, down to the spellings of keys, flags, numbers and job
  types; that the parser gives that meaning; and a printer whose output is
  parsed back. `Ascii` and `Whitespace` hold letter case and trimming.
- **Scheduler, one call at a time** (`Core`, `Resources`,
  `ResourceRejection`, `Scheduler`, `Outcome`, `Tick`, `TickAccount`,
  `TickFires`, `NextFires`, `ConditionFires`, `TickForever`, `Worker`,
  `SchedulerStore`): tables as maps and sequences; the allocator, the tick, a
  run task, a retry and a status change as functions, with `Store` as the class
  that does the same in place.
- **Scheduler, all at once** (`Protocol` and `Protocol*`): the same program
  as a state machine whose steps are single calls to the store or the queue.
  One tick loop, any number of run tasks and retry tasks, API callers and
  operators interleave freely. A tick carries its instant and what the
  calendars say of it. `ProtocolTick` and `Worker` show that the
  one-call-at-a-time operations are histories of this machine, and
  `ProtocolWitness` gives the histories that lead into its bad states.

In conditions a character stands for one byte; in JIL it is a Unicode
character, as the program reads them. Identifiers are numbers of which only
equality matters; a run id is never used twice. Times and counters are
unbounded integers except where the program's width shows: `i32` operands,
`u64` seconds and the `as i32` cast of counters in conditions, the integers of
JIL attributes, and the saturating `u64` arithmetic of the back-off. The clock, the cron search (which
may fail, and otherwise is known only to look strictly ahead), calendars (sets
of instants), the way a process ends and the snapshot a tick sees are
parameters.

## What does not hold, and exactly when

- `Not` prints as `not(...)`, which the parser takes for an unknown function;
  seconds of a look-back are dropped in print, and the least `i32` is refused.
  `RoundTripExactly` says which expressions survive: those and no others.
- The documentation says that a job without history makes an expression
  unknown, and nothing else does. `DocumentedRuleFailsExactly` says when the
  code answers all the same: a job that never ran is known not to be running,
  and, if it is in the table, to have run zero times and not to have ended in
  any window. It also says when the code leaves more open: an exit code that is
  missing, or a global that is not set. `UnknownExactly` is the whole rule.
- The documented delay `base * 2^(attempt - 1)` is slept exactly when
  `DelayIsAsDocumented` says so; the exponent stops growing at attempt 31.
- Two claims of one resource name make the holds table refuse the second row:
  an error and not a "no" (`RejectedExactly`). The search for the next fire of a
  cron expression can fail: creating or editing such a job is refused
  (crates/rsched-api/src/routes.rs:144, 326), but the JIL import stores it
  without a next fire (1072-1075), and a trigger makes it due (284-287). Either
  error ends the tick, and nothing else does: `TickFailsExactly`.
- A job with a repeated claim, due longest, fails any number of ticks in a row
  (`RepeatedClaimStopsEveryTick`). As long as no calendar holds it back and
  nobody touches it, sets an earlier fire or deletes what it claims, the loop
  dispatches no job at all and holds only go, whatever tasks, retries,
  operators and other callers do: `RepeatedClaimBlocksTheLoop`,
  `RepeatedClaimHappens`.
- A job whose cron search fails, due longest, is dispatched by each of any
  number of ticks in a row that find room, and each then fails
  (`UnschedulableJobFiresEveryTick`). That is also the only way a fire is
  doubled: `FireIsDoubledExactly`.
- A process that cannot be started leaves its holds behind for good:
  `SpawnFailureHappens`, `SpawnFailureLeaks`. There is no other leak:
  `NothingLeaks`.
- A run the queue had no room for stays Queued for ever, and its condition job
  never fires again: `OverflowHappens`, `OrphanBlocksItsCondition`.
- The state an operator gives a run lasts if and only if nobody has the run
  still before him: `OperatorStateLastsExactly`. Without CHANGE_STATUS states
  only go forward: `RunsGoForward`.
- A fire set while the tick loop holds an older row of the job may be
  overwritten: exactly if the loop can come to set that row's next fire, which
  takes a dispatch or a calendar that forbids the job (`FireLastsExactly`). It
  goes without another run of the job exactly if the loop has stored the run of
  the older fire already, or the row is off calendar (`FireGoesUnseenExactly`).
- An attribute line at the start of one JIL text goes to the block left open by
  the text before it. The two texts still give the blocks of both exactly if
  those attributes, read one by one, change nothing there
  (`ConcatenatesExactly`); `update_job: x` followed by `owner: y` does not
  (`OwnerMoves`).
- The `end` frame of the log stream may come with rows unsent, also of a run
  that nobody interferes with: `EndCanLoseRows`. It is honest exactly if the
  rows there at the last page were all (`EndIsCompleteExactly`), and so it is
  if the run was over before that page and no operator had changed its state
  (`EndAfterOutcomeIsComplete`).
- The bounded replay cache forgets unexpired fingerprints exactly when a new
  one arrives while the cache is full of them: `AgreesExactlyWhileRoom`.
- A comment in the JIL parser says that a blank line ends the attributes of a
  block (crates/rsched-jil/src/parse.rs:183-184); the code passes over it
  (188-190), and so does the model.
- The misfire policy and the tick configuration are not read by the code, and
  so appear nowhere.

## Model

| member | source | states |
|---|---|---|
| Dag.HasCycle | crates/rsched-scheduler/src/dag.rs:8-20 | for every graph and key order: a job is returned exactly when there is a directed cycle, it lies on one, and otherwise the visiting order is a topological order of all nodes |
| Dag.CycleSearch.Dfs | crates/rsched-scheduler/src/dag.rs:22-45 | the recursion ends, keeps the call stack a walk through `visiting`, leaves `visiting` as it found it, and lists the node after all of its upstreams |
| Dag.TopologicalOrderIsAcyclic | crates/rsched-scheduler/src/dag.rs:8-20 | a graph that can be listed upstream-first has no cycle |
| Dag.BackEdgeClosesCycle | crates/rsched-scheduler/src/dag.rs:28-30 | meeting a node still being visited means it lies on a cycle |
| Dedup.WebhookDedup.CheckAndInsert | crates/rsched-api/src/webhook_dedup.rs:77-92 | duplicates are exactly the live keys; a stale key is refreshed; a new key goes in, after evicting a least-recent entry when full |
| Dedup.WebhookDedup.Prune | crates/rsched-api/src/webhook_dedup.rs:95-99 | exactly the live entries stay |
| Dedup.WebhookDedup.EvictOldest | crates/rsched-api/src/webhook_dedup.rs:102-116 | exactly one entry goes, and none is older |
| DedupHistory.SizeNeverExceedsLimit | crates/rsched-api/src/webhook_dedup.rs:87-90 | over any history of checks and prunes the cache never outgrows its limit |
| DedupHistory.DuplicatesWereAccepted | crates/rsched-api/src/webhook_dedup.rs:77-92 | a reported duplicate repeats a request accepted within the window |
| DedupHistory.AgreesExactlyWhileRoom | crates/rsched-api/src/webhook_dedup.rs:77-116 | the cache remembers the same live keys as a map without limit, throughout, if and only if no new key arrives while the limit is reached by live ones; and then gives the same answers |
| DedupHistory.PruningChangesNoAnswer | crates/rsched-api/src/webhook_dedup.rs:95-99 | with distinct check times, two histories with the same checks give the same answers however they prune |
| ConditionCursor.Parse | crates/rsched-conditions/src/parse.rs:355-357 | the imperative parser is total and computes the parser function on every text |
| ConditionCursor.Parser.SkipWs | crates/rsched-conditions/src/parse.rs:59-63 | the cursor loop skips what the function skips |
| ConditionCursor.Parser.ReadIdent | crates/rsched-conditions/src/parse.rs:87-99 | the cursor loop reads the word the function reads |
| ConditionCursor.Parser.ReadLookback | crates/rsched-conditions/src/parse.rs:102-115 | same for look-backs, with the error and its position |
| ConditionCursor.Parser.TryReadCmpOp | crates/rsched-conditions/src/parse.rs:153-177 | same for comparison operators |
| ConditionCursor.Parser.ReadInt | crates/rsched-conditions/src/parse.rs:180-204 | same for integers, with overflow before the sign is applied |
| ConditionCursor.Parser.ParseFuncCall | crates/rsched-conditions/src/parse.rs:206-256 | same for calls, known and unknown |
| ConditionCursor.Parser.ParseAtom | crates/rsched-conditions/src/parse.rs:258-283 | same for atoms |
| ConditionCursor.Parser.ParseNot | crates/rsched-conditions/src/parse.rs:285-302 | same for `not`, putting the cursor back when it is no keyword |
| ConditionCursor.Parser.ParseAnd | crates/rsched-conditions/src/parse.rs:304-319 | same for the loop over `and` |
| ConditionCursor.Parser.ParseOr | crates/rsched-conditions/src/parse.rs:321-336 | same for the loop over `or` |
| ConditionParser.ParseAtom | crates/rsched-conditions/src/parse.rs:258-283 | a successful sub-parse strictly advances within the text and yields legal names, whole-minute look-backs and integers above the least |
| ConditionAccepts.GrammarAccepted | crates/rsched-conditions/src/parse.rs:206-351 | every text of the grammar parses to its meaning: left-nested `or` of left-nested `and` of units, in any length, letter case and spacing |
| ConditionDerives.ParserDecidesGrammar | crates/rsched-conditions/src/parse.rs:206-357 | a text parses to an expression if and only if the grammar derives it with that meaning |
| ConditionErrors.ErrorsAreTrue | crates/rsched-conditions/src/parse.rs:59-357 | whatever the parser reports of a text it refuses is so at that place: the character or operand is missing, the word is no function, the numeral is too large, the look-back is no clock time, the rest is no space |
| ConditionRoundTrip.ParsePrinted | crates/rsched-conditions/src/expr.rs:81-99 | what parsing makes of every printed expression, including the three ways it differs |
| ConditionRoundTrip.RoundTripExactly | crates/rsched-conditions/src/expr.rs:38-99 | printing then parsing is the identity exactly on `Not`-free expressions with whole minutes and integers above the least; with a `Not` it is the error for an unknown function |
| ConditionRoundTrip.ParsedSurvivesPrinting | crates/rsched-conditions/src/parse.rs:338-357 | whatever the parser returns is legal and, unless it holds a `Not`, survives printing and parsing |
| Evaluator.EvaluationIsStrict | crates/rsched-conditions/src/eval.rs:65-113 | the answer is known exactly when every leaf is, and is then the classical one |
| Evaluator.AnswersAreStable | crates/rsched-conditions/src/eval.rs:65-113 | learning unknown leaves never changes an answer |
| RunHistory.TakeSnapshot | crates/rsched-scheduler/src/condition_ctx.rs:39-72 | the snapshot holds every job's recent runs and the newest of them, and nothing else |
| RunHistory.NewestRunDecides | crates/rsched-scheduler/src/condition_ctx.rs:39-131 | success, failure, done, running, notrunning and exitcode without a look-back judge a job by its newest run; a job in the table that never ran has no state and no exit code, is not running, has run zero times and ended in no window |
| RunHistory.UnknownExactly | crates/rsched-conditions/src/eval.rs:65-113 | over a snapshot an expression is unknown if and only if one of its tests is: a state or exit code of a job that never ran, any other test of a job not in the table except running and notrunning, a missing exit code, or an unset global |
| RunHistory.DocumentedRuleFailsExactly | crates/rsched-conditions/src/eval.rs:61-113 | the documented rule, unknown exactly when a referenced job has no history, fails in two ways, each with its exact condition |
| RunHistory.NeverRunIsCounted | crates/rsched-scheduler/src/condition_ctx.rs:74-131 | a failing input: of a job in the table that never ran, `numrun(j, 00.01) = 0` holds and `success(j, 00.01)` does not |
| RunHistory.CapturedIsShown | crates/rsched-scheduler/src/condition_ctx.rs:39-72 | the snapshot loop establishes what these results assume of a snapshot |
| RunHistory.WiderWindowCountsMore | crates/rsched-scheduler/src/condition_ctx.rs:74-88 | windowed counts grow with the window |
| RunHistory.GlobalsSayYes | crates/rsched-scheduler/src/condition_ctx.rs:133-139 | a global that is set is true if and only if it is `y`, `yes`, `true` or `1`, in any letter case and padding, and otherwise false |
| RunWindows.WindowsAskTheTable | crates/rsched-scheduler/src/condition_ctx.rs:74-131 | of a job with at most 200 runs: a test with a look-back holds if and only if some row of the run table with that outcome was started, or else queued, within the window, and a count compares the number of such rows; of any job, the same over the rows listed |
| RunWindows.SnapshotCountsTheTable | crates/rsched-scheduler/src/condition_ctx.rs:39-88 | a count never exceeds that of the whole table, and equals it for at most 200 runs |
| RunWindows.ExitCodesCompare | crates/rsched-conditions/src/eval.rs:61-113 | an exit code is compared as it stands, by the operator that is true of the two numbers |
| RunHistory.StateIsACount | crates/rsched-scheduler/src/condition_ctx.rs:106-131 | with a look-back `success` is `numsuc >= 1`, and `failure` is `numfail >= 1` |
| BoxRollup.EvaluateBoxState | crates/rsched-scheduler/src/box_eval.rs:14-76 | paused first; then failed if the failure rule is known to be true, success if the success rule is; then failed exactly if some child is Failed, Killed or Lost, running exactly if none is and some is Running or Queued, success exactly if there are children and all are Success, else pending |
| BoxRollup.BoxStateMeans | crates/rsched-scheduler/src/box_eval.rs:36-76 | the same of the function that the loop computes |
| BoxRollup.DefaultRuleAsExpression | crates/rsched-scheduler/src/box_eval.rs:14-76 | writing the default rule out, printed, as the success expression changes the state of no box |
| BoxRollup.AllSucceedMeans | crates/rsched-scheduler/src/box_eval.rs:80-112 | the conjunction is known to be true exactly when every child's latest state is Success |
| BoxRollup.ChildrenAreJudgedAlike | crates/rsched-scheduler/src/box_eval.rs:90-112 | every box rule evaluates as the same condition does over a history in which each child has run once, just now, to its state and without an exit code; all tests, counts and look-backs included |
| BoxRollup.OrderOfChildrenIsIrrelevant | crates/rsched-scheduler/src/box_eval.rs:36-76 | the state depends on the set of children only |
| Backoff.DelayIsMonotone | crates/rsched-core/src/policy.rs:43-57 | a later attempt never waits less |
| Backoff.DelayLevelsOff | crates/rsched-core/src/policy.rs:43-57 | from attempt 31 on the delay stays |
| Backoff.DelayIsAsDocumented | crates/rsched-core/src/policy.rs:26-57 | the documented formula holds if and only if the exponent is not clipped or clipping does not show |
| Backoff.ChainDelayIsBounded | crates/rsched-core/src/policy.rs:43-57 | over a chain of attempts: nothing without back-off, exactly the fixed delay per retry, at most the ceiling per retry |
| LogStore.RunLogs.Persist | crates/rsched-bin/src/main.rs:157-181 | the rows are the longest prefix of the output that fits 100 MB, numbered from 0; truncation is flagged exactly when the total exceeds it; other runs' rows are untouched |
| LogStore.RunLogs.Append | crates/rsched-store/src/repo.rs:988-1009 | a second row with the same number is ignored |
| LogTail.TailDeliversSlice | crates/rsched-api/src/routes.rs:910-941 | in every interleaving the client holds a contiguous in-order slice of the kept output, from its starting number |
| LogTail.PageTakesAllThereIs | crates/rsched-api/src/routes.rs:910-941 | a page sends all rows there are to send, up to 500 |
| LogTail.EndIsCompleteExactly | crates/rsched-api/src/routes.rs:943-961 | the end frame means everything was sent if and only if the rows there at the last, empty page were all there would be |
| LogTail.EndAfterDrainIsComplete | crates/rsched-api/src/routes.rs:914-961 | it does if the writer was done before that page |
| LogTail.EndAfterOutcomeIsComplete | crates/rsched-api/src/routes.rs:943-961 | it does if the run was already over before that page, unless an operator had changed its state |
| LogTail.EndCanLoseRows | crates/rsched-api/src/routes.rs:943-961 | and for any one non-empty chunk within the cap there is a history without operators in which it does not: the row is kept, nothing is sent, and the stream has ended |
| JilText.StripComments | crates/rsched-jil/src/parse.rs:42-69 | the loop computes the comment-stripping function |
| JilText.StripLeavesNoComment | crates/rsched-jil/src/parse.rs:42-69 | the result opens no comment |
| JilText.StripIsIdempotent | crates/rsched-jil/src/parse.rs:42-69 | stripping twice is stripping once |
| JilText.CommentBecomesNewline | crates/rsched-jil/src/parse.rs:42-69 | the first comment, up to the first closing mark, becomes a newline; what is before it stays, and what is behind is stripped likewise |
| JilText.OpenCommentIsRefused | crates/rsched-jil/src/parse.rs:42-69 | a comment that is not closed is refused |
| JilReads.ReadExactly | crates/rsched-jil/src/parse.rs:237-406 | an attribute comes to a reading if and only if the grammar says so: which key, in any letter case, sets which field, which texts are a flag, a number in the field's range or a job type, what is refused, passed over or warned about |
| JilAccepts.SourcesAreParsed | crates/rsched-jil/src/parse.rs:17-406 | every text of blocks, in whatever spacing, letter case, spelling and quoting, with comments and idle lines, parses to the blocks that its readings make up, or to the first refusal |
| JilAccepts.UnknownVerbIsRefused | crates/rsched-jil/src/parse.rs:111-126 | another word ending in `_job` in the place of a verb is refused, under its line number |
| JilPrinter.PrintedIsParsed | crates/rsched-jil/src/parse.rs:17-406 | every list of blocks, with all fields and warnings, printed and parsed is itself |
| JilSpecs.FillBag | crates/rsched-jil/src/parse.rs:223-383 | the loops that build a specification, whole or partial, compute the fill function, and stop at the first refused attribute |
| JilSpecs.LastValueWins | crates/rsched-jil/src/parse.rs:223-383 | building fails exactly if an attribute is refused, with the first refusal; otherwise each field has the last value given for it, bad values in updates passed over, and every warning is kept in order |
| JilSpecs.UnchangedExactly | crates/rsched-jil/src/parse.rs:237-383 | further attributes leave a specification as it is if and only if none is refused or warned about, and each field they set ends up with the value it had |
| JilBlocks.ParseJil | crates/rsched-jil/src/parse.rs:17-39 | the block loop always advances and computes the blocks, with their specifications and warnings, or the first error |
| JilBlocks.TryParseVerbLine | crates/rsched-jil/src/parse.rs:74-121 | a verb line takes its continuation lines along, into a whole or a partial specification; anything else is left to the caller |
| JilBlocks.GatherAttrs | crates/rsched-jil/src/parse.rs:185-205 | exactly the attribute lines before the next verb line are gathered |
| JilSegments.ParseConcatenates | crates/rsched-jil/src/parse.rs:17-39 | two texts, the second opening with a known verb, parse together to the blocks of both |
| JilJoins.TextsTogether | crates/rsched-jil/src/parse.rs:17-39 | two texts that parse give together the blocks of both, with the block left open by the first built anew from its attributes and those before the first verb of the second |
| JilJoins.ConcatenatesExactly | crates/rsched-jil/src/parse.rs:185-205 | they give exactly the blocks of both if and only if no block is left open, or those attributes change nothing in it: none is refused or warned about, and each sets a field, in the end, to what it already is |
| JilWitness.OwnerMoves | crates/rsched-jil/src/parse.rs:185-205 | a failing input: an update that names no owner, followed by a text that begins with one |
| Resources.AcquiredExactly | crates/rsched-store/src/repo.rs:1881-1925 | acquisition succeeds if and only if the claims name distinct, existing resources, each with positive units that fit before any is taken and not yet held by the run; it then adds exactly those holds |
| ResourceRejection.RejectedExactly | crates/rsched-store/src/repo.rs:1911-1922 | for a fresh run, the error comes if and only if the claims up to some point can be met and the next repeats a name with room for both |
| Resources.AcquireThenRelease | crates/rsched-store/src/repo.rs:1881-1934 | a failed acquisition changes nothing, and releasing undoes any |
| Resources.TryAcquireKeepsSound | crates/rsched-store/migrations/sqlite/0004_resources.sql:5-19 | keys, checks and capacities hold after acquiring |
| Resources.ReleaseKeepsSound | crates/rsched-store/src/repo.rs:1928-1934 | and after releasing |
| Resources.DropKeepsSound | crates/rsched-store/src/repo.rs:1856-1862 | and after deleting a resource with its holds |
| Resources.ClampIsIdle | crates/rsched-store/src/repo.rs:1865-1876 | free and used units add up to the capacity |
| Tick.FireDoes | crates/rsched-scheduler/src/tick.rs:84-118 | one due job: which outcome it meets, decided by calendar, claims, room and next fire before it is fired, and all it changes |
| TickAccount.TickAccounts | crates/rsched-scheduler/src/tick.rs:75-119 | every due job meets one outcome, decided in the tables that the jobs before it leave; queue, run rows, holds, ids and fire times change by exactly what the outcomes say; only an error cuts the list short |
| TickFires.NoJobFiresTwice | crates/rsched-scheduler/src/tick.rs:75-171 | the count returned is the number of intents enqueued, and no job gets two in one tick, due and condition taken together |
| TickFires.OnlyOpenFiresAreDueAgain | crates/rsched-scheduler/src/tick.rs:88-118 | a job without condition is due again at the same instant if and only if its fire was left open: blocked, queue full, or at or behind an error |
| TickFires.FireIsDoubledExactly | crates/rsched-scheduler/src/tick.rs:111-119 | a job is dispatched and yet due again if and only if its cron search failed after the dispatch |
| TickFires.TickFailsExactly | crates/rsched-scheduler/src/tick.rs:84-119 | the tick fails if and only if some due job, in the tables that those before it leave, repeats a claim with room for both, or has no next fire and is off calendar or sent |
| TickFires.TickFailsOnlyOnRepeats | crates/rsched-scheduler/src/tick.rs:94-119 | without repeated claim names, and with a next fire for every due job, no tick fails |
| TickForever.RepeatedClaimStopsEveryTick | crates/rsched-scheduler/src/tick.rs:94-99 | of any number of ticks in a row, a job due longest that repeats a claim fails all, and none changes a job, a run, a hold or the queue |
| TickForever.UnschedulableJobFiresEveryTick | crates/rsched-scheduler/src/tick.rs:111-119 | of any number of ticks in a row with room, a job due longest without a next fire and without claims is dispatched by each, and each fails |
| NextFires.FireSetsTheNext | crates/rsched-scheduler/src/tick.rs:84-119 | a due job that is sent or held back by a calendar gets as next fire exactly the instant the cron search found, or one interval from now, or none, and its row is otherwise as it was; if it is neither, or the search finds nothing, no row changes |
| NextFires.TickSetsTheNext | crates/rsched-scheduler/src/tick.rs:75-187 | the same of each due job that a whole tick has dealt with; from then on every due query finds the job exactly from that instant on, or never |
| NextFires.ListedFromItsFire | crates/rsched-store/src/repo.rs:356-366 | a due query at any instant finds a job if and only if it is not paused and its next fire is not later |
| NextFires.CalendarsHoldBack | crates/rsched-scheduler/src/tick.rs:45-71 | a job is held back if and only if the calendar it is to run on is stored and closed, or the one it is to stay out of is stored and open |
| ConditionFires.ConditionActsExactly | crates/rsched-scheduler/src/tick.rs:125-171 | a condition job is acted on if and only if it is unpaused, not held back, has only runs that are over, and its text parses to an expression known to be true; then a first attempt is stored, and, if the queue has room, sent and the fire time cleared; otherwise nothing changes |
| SchedulerStore.Store.Due | crates/rsched-store/src/repo.rs:356-366 | the unpaused jobs whose time has come, each once, earliest first |
| SchedulerStore.Store.TryAcquire | crates/rsched-store/src/repo.rs:1881-1925 | the loop over claims with its rollback is the allocator function, in place |
| SchedulerStore.Store.Release | crates/rsched-store/src/repo.rs:1928-1934 | exactly the run's rows go |
| SchedulerStore.Store.HasActiveForJob | crates/rsched-store/src/repo.rs:688-696 | true exactly when some run of the job is not over |
| SchedulerStore.Store.TrySend | crates/rsched-scheduler/src/dispatch.rs:31-37 | enqueues at the end if there is room, else changes nothing |
| SchedulerStore.Store.FireDue | crates/rsched-scheduler/src/tick.rs:84-118 | the loop body is one fire |
| SchedulerStore.Store.FireConditionJob | crates/rsched-scheduler/src/tick.rs:133-168 | a condition job fires when it parses, is known true and has no active run |
| SchedulerStore.Store.TickOnce | crates/rsched-scheduler/src/tick.rs:75-171 | the two loops are the tick, and keep the tables sound |
| SchedulerStore.Store.RunTask | crates/rsched-bin/src/main.rs:125-233 | apart from the log: the run's row ends Failed with all holds kept if nothing was started, else in the state its ending gives, with exactly its holds released; a retry is due if and only if it Failed with attempts left |
| Outcome.EndsExactly | crates/rsched-bin/src/main.rs:183-215 | which final state a process's ending gives, each exactly |
| Worker.RetriesExactly | crates/rsched-bin/src/main.rs:183-231 | a retry follows exactly a time-out, a missing exit code or one that does not pass, while attempts are left |
| SchedulerStore.Store.StoreRetry | crates/rsched-bin/src/main.rs:289-308 | one new row: same job and snapshot, next attempt, the failed run as its parent |
| SchedulerStore.Store.ChangeRunState | crates/rsched-api/src/routes.rs:757-769 | an existing run, whatever its state, takes the new one and loses exactly its holds; all other rows stay |
| Worker.TaskIsAHistory | crates/rsched-bin/src/main.rs:125-233 | an uninterrupted run task is a history of the state machine |
| Worker.RetryIsAHistory | crates/rsched-bin/src/main.rs:289-308 | so is storing a retry |
| Worker.StatusChangeIsAHistory | crates/rsched-api/src/routes.rs:757-769 | so is a status change |
| ProtocolTick.AtomicTickIsAHistory | crates/rsched-scheduler/src/tick.rs:75-171 | the tick as one operation is a history of the state machine, from any state in which the loop is idle |
| ProtocolPlaces.StepKeepsPlaced | crates/rsched-bin/src/main.rs:125-233 | a run is in at most one of: the loop's hand, a waiting sender, the queue, a task, or past them; and queued once |
| ProtocolQueue.RunsBeginInOrder | crates/rsched-scheduler/src/dispatch.rs:22-46 | over every history from the empty store: runs are taken off the queue exactly in the order in which they were sent, none passed over, lost or taken twice, and the queue never outgrows its capacity |
| ProtocolQueue.QueueIsFifo | crates/rsched-bin/src/main.rs:125-133 | over any history: what was queued and sent is what was taken and is queued still, in this order |
| ProtocolHolds.CapacityIsNeverExceeded | crates/rsched-store/src/repo.rs:1865-1925 | in every reachable state used units fit the capacity and the clamp is idle |
| ProtocolHolds.NothingLeaks | crates/rsched-scheduler/src/tick.rs:92-116 | every hold belongs to a run being dispatched, queued, in a task or failed to spawn; so without spawn failures an idle scheduler has every unit free |
| ProtocolHolds.SpawnFailureLeaks | crates/rsched-bin/src/main.rs:134-144 | the holds of a run that failed to spawn survive any history, up to a status change of it or the deletion of the resource |
| ProtocolWitness.SpawnFailureHappens | crates/rsched-bin/src/main.rs:134-144 | for any claim that fits: a history from the empty store to an idle scheduler with the claimed units gone |
| ProtocolHolds.LeakSurvivesStep | crates/rsched-bin/src/main.rs:134-144 | and those two steps do free them |
| ProtocolStates.RunsGoForward | crates/rsched-bin/src/main.rs:151-217 | without CHANGE_STATUS states only go forward and terminal ones stay; job, attempt and parent never change |
| ProtocolStates.StepStepsOn | crates/rsched-bin/src/main.rs:134-217 | each step is Queued to Running or Failed, or Running to an outcome |
| ProtocolStates.NoActiveRunIsLost | crates/rsched-scheduler/src/tick.rs:102-116 | a run that is not over is being dispatched, waiting, queued or in a task, or the queue had no room for it |
| ProtocolStates.TaskOverridesOperator | crates/rsched-bin/src/main.rs:183-217 | an operator's state on a started run is replaced by the task's outcome |
| ProtocolOperators.OperatorStateLastsExactly | crates/rsched-api/src/routes.rs:757-769 | from every reachable state: the operator's state outlasts every history without another status change if and only if the run is not with the tick loop, a waiting sender, the queue, or a task that has not stored its outcome |
| ProtocolStates.OrphanBlocksItsCondition | crates/rsched-scheduler/src/tick.rs:149-164 | after an overflow the run stays Queued and its job's condition is never acted on again, unless an operator changes the run |
| ProtocolWitness.OverflowHappens | crates/rsched-scheduler/src/tick.rs:152-164 | for any size of the queue: a history from the empty store, in which the condition job is created once the queue is full, to such a run of it |
| ProtocolFireLosses.FireLastsExactly | crates/rsched-scheduler/src/tick.rs:84-119 | from every reachable state: a fire set for a job outlasts the tick in progress, however that goes on, if and only if the loop holds no row of it whose next fire it may yet set, and set to another time: one off calendar, one that repeats no claim name, or one that has its claims |
| ProtocolFireLosses.FireGoesUnseenExactly | crates/rsched-scheduler/src/tick.rs:85-119 | it can go without another first attempt of the job being stored if and only if the run of that row is stored already, or the row is off calendar |
| ProtocolStuck.RepeatedClaimBlocksTheLoop | crates/rsched-scheduler/src/tick.rs:94-99 | from every reachable state with a job due longest whose claims are rejected: in every history that leaves the job, its resources and its place alone, the loop never gets past it, no hold is added and no run is stored but of retries |
| ProtocolStuck.RepeatedClaimHappens | crates/rsched-scheduler/src/tick.rs:94-99 | for any claim that fits twice: a history from the empty store into such a state |
| ProtocolRetries.RetryChainsAreBounded | crates/rsched-bin/src/main.rs:221-308 | the attempts before a run form a chain as long as its attempt number, numbered in order, of one job and one snapshot whose limit bounds it, all but the last Failed |
| ProtocolRetries.OneRetryPerRun | crates/rsched-bin/src/main.rs:221-231 | no two runs retry the same run |
| ProtocolConditions.ConditionJobsRunOneAtATime | crates/rsched-scheduler/src/tick.rs:125-171 | a condition job with one attempt, neither edited, triggered nor overridden, has at most one active run in every state of every history |

## Left out

- SQL text, JSON columns, time formats and driver errors: each store call is one atomic step that succeeds, with the keys and checks of the schema written out.
- Deleting jobs, restarting the process, and the store errors the program drops.
- Calendar rules and time zones: a calendar is a set of instants, the cron search fails or looks ahead.
- Durations outside the range of the time library: a counting test without a look-back asks for a window that the program cannot represent, and it panics there; here that window is only very large.
- Texts of error messages: an error is its kind, its position and its parameters.
- Non-ASCII input of the condition parser, beyond treating text as bytes.
- ProtocolFireLosses.FireLastsExactly: does not speak of condition jobs, whose fire time the loop over conditions clears after each dispatch.
- SchedulerStore.Store.RunTask: does not write the log, which `LogStore.RunLogs.Persist` does for the same loop.
- Turning JIL specifications into jobs.
- The idle timeout, sending failures and client messages of the log stream; they only end it early.
- Concurrent calls into the replay cache: each call is taken as one step.
- The order of two free slots between a waiting sender and the tick loop: the machine allows both, so a send may fail while a slot is owed to a sender.
- `deps_satisfied` and policy validation: one reading of the branches settles them.
- Misfire policies, dependency triggers, box terminators and auto-hold, which are declared but not wired.
- Processes, signals, the file watcher, HTTP, authentication, alerts, the CLI and the UI.
