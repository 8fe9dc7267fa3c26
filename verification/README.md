# Verification model of the home-improvement query API

A Dafny model of a Go service that answers retail and renovation queries over a range of
calendar days. A query is split at a clock-derived cutoff between a historical engine and
StarRocks, the pieces run concurrently under an error group, and their answers are merged with
overflow-checked addition. The model covers that pipeline from the request's texts to the merged
answer, the layers whose facts it relies on, the service's start-up and shutdown, and the data
preparation of the population chart script. `dafny verify dfyconfig.toml` checks all of it.

## What is modelled, file by file

- `Calendar.dfy`, `DateText.dfy`: a proleptic Gregorian calendar (dates, day numbers, the
  normalising `AddDate`) and the layout `2006-01-02`. These are library behaviour of Go's `time`
  package; the calendar facts are proved, not assumed.
- `Zones.dfy`: instants in whole seconds, UTC offsets, the double offset lookup by which
  `time.Date` turns a wall-clock reading into an instant, and `AddDate` on instants. Nothing is
  assumed of a zone as a whole. A theorem names the days whose midnights the code meets:
  `Comparable(z, m, n)` says that days m and n have a midnight, at offsets less than a day apart.
  Days since which a zone has kept one offset always compare (`Zones.SteadyComparable`), so the
  theorems reach the default Asia/Shanghai, some early midnights of which are missing.
- `Domain.dfy`: sources, organisations, ranges, the saturating day count and the span check.
- `Errors.dfy`: error chains, `errors.Is`, `errors.Join`, and the two classifiers.
- `Planner.dfy`, `Tables.dfy`: the split planner and the sums its segments ask for.
- `Merge.dfy`: the two merge loops in int64 arithmetic.
- `Protocol.dfy`: workers, group, contexts and caller as a transition system; every interleaving
  of enabled steps is a run.
- `DayLoop.dfy`: the one day loop, over instants, in any zone in which it ends, and the days it
  meets. What its callbacks accumulate is carried from call to call.
- `Memory.dfy`: the deterministic repository: what its two loops give, and the sums they should.
- `Service.dfy`: construction of the query service, and theorems about whole queries.
- `Sql.dfy`, `Statements.dfy`, `Reading.dfy`: how an engine reads and answers a SELECT of sums,
  knowing nothing of the service; the two dialects the service writes; and what its statements
  then ask for.
- `HttpApi.dfy`: request parsing and the reported segments.
- `Answers.dfy`: from a request's texts over the statements' own texts to the reply.
- `Config.dfy`, `Lifecycle.dfy`: loading, building, serving, shutdown and closing; effects are
  events in a journal, outside outcomes are parameters.
- `Population.dfy`: country metadata and the latest-record fold.
- `Wrappers.dfy`: `Option` and `Result`.

A requested day is named by its day number, as a `time.Time` at its midnight names it. `Calendar`
takes days apart into year, month and day to read, print and step them. The planner's cutoff, the
day loop's variable and their moves by `AddDate` are instants, as in the code.

## Results worth reading first

- `Answers.AcceptedRetailIsAnswered`, `Answers.AcceptedFunnelIsAnswered`: whatever the four texts
  of an accepted request, any schedule that replies with data replies with the exact sums, each
  day counted once, from the engine that day is routed to. Engines are only trusted to answer the
  SQL text they were sent, read word by word. `Service.RetailAnswersDayByDay` is the step below.
- `Protocol.ReplyIsWholeOrError`, `Protocol.ErrorIsRootCause`, `Service.SqlFailureClass`: no
  partial data, and never an error that the group's own cancellation induced.
- `Service.MemoryRetailRunsReplyAlike`, `Service.MemoryFunnelRunsReplyAlike`: in memory mode,
  where the planned segments can be walked midnight by midnight, every run gives the same data
  for every source, clock, window and schedule, or says that its caller timed out (504) or
  cancelled (500).
- `DayLoop.MeetsRangeExactly`, `Service.MemoryRetailExactly`, `Planner.PlanWithoutMidnight`: exactly
  when days are met, summed and routed as they should be although clocks skip midnights.
- `HttpApi.AcceptedQueriesRender`, `Statements.DialectsAgree`: every accepted request renders in
  both dialects, and both denote the same query.
- `Memory.Totals41Days`, `Domain.DaysExactly`, `Planner.RoutingMonotoneExactly`: exact conditions,
  in both directions.
- `Lifecycle.Run` with `Lifecycle.RunsCloseWell`: every opened database is closed exactly once, in
  reverse, after everything else; and what serves in between is what the configuration says
  (`Lifecycle.BuildWith`, `Config.LoadsExactly`).

## Where code and documents differ

- The repository's README (line 193) says rows held by both stores are counted twice under
  `source=auto`. The code does not: the segments are disjoint, so such rows count only in the
  engine their day is routed to (`Tables.OverlapIsNotCounted`).
- The span limit is documented as a number of days. In a zone whose UTC offset is larger at the
  end of the range than at its start the code lets one more day through, and limits of 106752 and
  above limit nothing (`Domain.NewDateRangeAccepts` says exactly when, `Domain.SpanCheckCanFail`
  gives an input for each).
- On a day whose midnight the clocks skip, the planner's cutoff keeps the later reading. Then the
  window's first day, asked for alone or as the last day of a range, goes to history; and a longer
  range that starts with it goes to StarRocks after a history segment that ends before it starts,
  which is also reported. `Planner.PlanWithoutMidnight` and `Planner.InvertedSegmentExactly` say
  exactly when, `Planner.WindowWithoutMidnight` gives inputs.
- The day loop keeps a later reading too. It meets exactly the range's days if and only if every
  day before the last has a midnight (`DayLoop.MeetsRangeExactly`). East of UTC it loses the last
  day (`DayLoop.OtherwiseLosesLastDay`, input `DayLoop.SkippedMidnightLosesDay`); west of UTC it
  can also meet a day twice (`DayLoop.SkippedMidnightRepeatsDay`). In memory mode `source=auto` and
  `source=hive` can then give different data (`Service.MemorySourcesCanDisagree`), and the answer
  is the range's aggregate exactly when no planned segment skips (`Service.MemoryRetailExactly`).
- When clocks go back over midnight, a day already routed to history returns to StarRocks
  (`Planner.RoutingCanReturn`); with a fixed offset it never does.
- Three or more parts of mixed sign could be refused although their sum fits
  (`Merge.ThreePartsCanOverflowEarly`); a plan never has three.
- The population script skips records it cannot read, but an infinite date or value stops it
  (`Population.LatestCountryPopulations`).

## Model

| member | source | states |
|---|---|---|
| Calendar.YearOf | internal/adapter/memory/repository.go:29-33 | the year found by cutting off 400-, 100-, 4- and 1-year cycles is the one whose days contain the given day |
| Calendar.FromDayNumber | internal/adapter/memory/repository.go:29-40 | normalisation: for every integer there is a valid date with that day number |
| Calendar.FromDayNumberInverts | internal/adapter/memory/repository.go:29-33 | dates and day numbers correspond one to one |
| Calendar.DayNumberOrders | internal/domain/model.go:87-89 | day numbers order dates exactly as year, month, day do, and tell them apart |
| Calendar.AddDays | internal/app/query_service.go:95-105 | the day part of `AddDate(0, 0, k)`, moving the day of the month and normalising, moves the day number by exactly k, for every k |
| Calendar.SuccessorIsNextDay | internal/adapter/memory/repository.go:40 | one day more is the schoolbook carry over month ends, leap days and century years, and raises the number by 1 |
| Calendar.MonthLengths | internal/domain/model.go:79-86 | the lengths of the twelve months, of every year |
| Calendar.DayNumberFormula | internal/adapter/memory/repository.go:29-33 | for every date the day number in closed form: Gregorian leap days, months counted from March |
| DateText.NumberOfPad | internal/domain/model.go:101-107 | zero-padded printing of a number is read back as that number, for every number and width |
| DateText.PadOfNumber | internal/domain/model.go:77-86 | reading a digit string and printing it at its width gives it back |
| DateText.PrintOfParse | internal/domain/model.go:77-107 | printing an accepted date gives the accepted text, character for character, with a year in 0..9999 |
| DateText.ParseOfPrint | internal/domain/model.go:77-107 | every date with a four-digit year is accepted from its text and read back as itself |
| DateText.OtherYearsRefused | internal/domain/model.go:79-86 | the text of a date with any other year is refused |
| DateText.ParseAcceptsExactlyPrinted | internal/domain/model.go:77-86 | the parser accepts exactly the texts of existing dates with four-digit years |
| DateText.TextOrderIsCalendarOrder | internal/domain/model.go:101-107 | byte order of printed dates is calendar order, and equal texts are equal dates |
| Zones.MidnightsOrder | internal/app/query_service.go:98-101 | comparing two midnights as instants compares their days, when the two offsets are less than a day apart |
| Zones.MidnightShowsItsDay | internal/app/query_service.go:78-81 | at its own midnight, and for a day while the offset stands, the wall clock shows the day |
| Zones.AddDateFromMidnight | internal/app/query_service.go:95-105 | from a real midnight `AddDate` leads to the start of the day k days on, in every zone |
| Zones.SkippedMidnight | internal/app/query_service.go:95-105 | a concrete zone in which from a skipped midnight it misses the midnights around by an hour |
| Errors.JoinMatchesParts | internal/bootstrap/app.go:57-64 | a joined error is absent iff all parts are, and matches a sentinel iff some part does |
| Errors.WrappingKeepsClass | internal/app/query_service.go:140-142 | wrapping with a message changes neither the HTTP class nor any sentinel match |
| Errors.JoinClass | internal/httpapi/errors.go:60-71 | a joined error has the first class, in the order 400, 503, 504, that a part has, and otherwise 500 |
| Errors.WrapErrClass | internal/adapter/sqlrepo/repository.go:32-41 | a driver error ends as 504 iff it is a deadline, 500 iff a cancellation and no deadline, 503 otherwise; classifying twice changes nothing |
| Domain.ParseSourceInverts | internal/domain/model.go:23-36 | a source is accepted iff the text is a public source's name, and keeps that name; otherwise invalid argument |
| Domain.PublicNames | internal/domain/model.go:23-36 | the four names and their sources, one by one |
| Domain.DaysOf | internal/domain/model.go:38-38 | the days of a range are exactly the contained ones, each once, in order |
| Domain.PrintOfParsedDay | internal/domain/model.go:77-107 | an accepted text is printed back exactly from the day it names |
| Domain.DaysExactly | internal/domain/model.go:97-99 | for ends with comparable midnights `Days()` is the calendar length, one less iff the UTC offset grows over the range, capped at 106752 by Duration saturation |
| Domain.DaysReversed | internal/domain/model.go:97-99 | a range and its reverse count the same whole days, the truncation and both saturations included |
| Domain.NewDateRangeAccepts | internal/domain/model.go:77-95 | exactly which texts and limits give a range, when the two days have comparable midnights, and that it prints as the given texts |
| Domain.SpanCheckInFixedZone | internal/domain/model.go:83-95 | with a fixed offset `Days()` is min(length, 106752), and the span check is exact for every limit below that |
| Domain.SpanCheckCanFail | internal/domain/model.go:90-93 | ten days accepted under a limit of nine in a zone with summer time, and 109573 days under a limit of 106752 in every fixed-offset zone |
| Planner.PlanFailsOnlyForUnknownSource | internal/app/query_service.go:85-93 | planning fails iff the source is none of the four, with invalid argument; plans have one or two segments |
| Planner.CutoffIsMidnight | internal/app/query_service.go:95-105 | counting back from today's midnight gives the midnight n - 1 days before, and once more the day before that |
| Planner.SteadyMeets | internal/config/config.go:113-117 | a request about days since which the zone has kept one offset meets its midnights, whatever its clocks did before |
| Planner.PlanInDays | internal/app/query_service.go:85-110 | the branches, which compare instants, come to comparing days with the cutoff day |
| Planner.PlanCoversEachDayOnce | internal/app/query_service.go:85-110 | each day of the range is in exactly one segment, other days in none, and the segment's engine is the one the cutoff assigns that day |
| Planner.PlanIsChain | internal/app/query_service.go:98-109 | the segments run from the requested start to the requested end, none empty, each starting the day after the one before |
| Planner.PlannedDatesStayInside | internal/app/query_service.go:98-109 | planned dates lie inside the requested range and keep four-digit years |
| Planner.WindowHasNDays | internal/app/query_service.go:83-96 | the realtime window, from the cutoff `AddDate` leads to, is n days, each the calendar successor of the one before and the last today; those are the days up to today that go to StarRocks |
| Planner.RoutingMonotoneExactly | internal/app/query_service.go:95-103 | no day returns from history to StarRocks between two clock readings iff the wall-clock date does not go back |
| Planner.RoutingMonotoneInFixedZone | internal/app/query_service.go:95-103 | with a fixed offset a day routed to history stays there at every later reading |
| Planner.RoutingCanReturn | internal/app/query_service.go:95-103 | a concrete zone whose clocks go back just after midnight in which a day does return |
| Planner.PlanWithoutMidnight | internal/app/query_service.go:85-110 | the plan of every range in order, with or without a midnight today, where clocks run evenly around the window's first day |
| Planner.InvertedSegmentExactly | internal/app/query_service.go:105-109 | a segment that ends before it starts is planned iff today has no midnight and two or more days are asked for from the window's first on |
| Planner.WindowWithoutMidnight | internal/app/query_service.go:95-109 | a concrete day without a midnight on which yesterday alone goes to history, and yesterday to tomorrow gets an inverted history segment |
| Tables.PlanPreservesSum | internal/app/query_service.go:85-110 | for all tables, metrics, clocks, windows and ranges, the planned statements together ask for the day-by-day routed sum |
| Tables.RoutedSumIsUnion | deploy/hive/schema.sql:2-5 | under the non-overlap contract the automatic answer is the sum over both tables |
| Tables.OverlapIsNotCounted | internal/app/query_service.go:105-109 | rows on the other side of the cutoff change nothing in what the planned statements ask for, so a day both tables hold is not counted twice |
| Merge.SafeAdd | internal/app/query_service.go:236-244 | in int64 arithmetic that itself never wraps: succeeds iff the exact sum fits, and is that sum |
| Merge.MergeRetail | internal/app/query_service.go:153-162 | the loop gives the exact sums iff every partial sum of orders fits, and otherwise only the overflow error |
| Merge.AddStage | internal/app/query_service.go:205-212 | one checked addition of one stage, and that its failure is the whole merge's |
| Merge.MergeFunnel | internal/app/query_service.go:204-233 | the same for all six stages |
| Merge.TwoPartsOverflowExactly | internal/app/query_service.go:105-109 | with at most two parts, partial sums fit iff the whole sum does |
| Merge.NonNegativeOverflowExactly | internal/app/query_service.go:153-161 | with non-negative values the same for any number of parts |
| Merge.ThreePartsCanOverflowEarly | internal/app/query_service.go:153-161 | a concrete mixed-sign triple refused although its sum fits |
| Merge.RetailMergeOverflowsExactly | internal/app/query_service.go:153-161 | the retail merge overflows iff the exact order sum is outside int64, for two parts or non-negative counts |
| Merge.FunnelMergeOverflowsExactly | internal/app/query_service.go:204-232 | the funnel merge overflows iff some stage's exact sum is outside int64, under the same condition |
| Protocol.StepKeepsInv | internal/app/query_service.go:127-151 | every step of a worker, the group, the caller or the contexts keeps the protocol's invariant |
| Protocol.RunsKeepInv | internal/app/query_service.go:125-151 | every state of every interleaving satisfies it: the shared context is done only after a stored error or the caller's end, shows the caller's own end until an error is stored, and is done when the reporter of that error is |
| Protocol.StepsUndoNothing | internal/app/query_service.go:125-151 | the caller's end, the first error, the context's error, answers and slots stay once they are there |
| Protocol.ReplyIsWholeOrError | internal/app/query_service.go:112-162 | the reply is the merge, in plan order, of what all repositories answered, or the report of one worker that failed |
| Protocol.SuccessMergesAnswers | internal/app/query_service.go:148-162 | a reply with data merges data each segment's own repository returned |
| Protocol.SuccessIsTruth | internal/app/query_service.go:148-162 | when each repository can only answer one datum, every run without failure replies with the merge of those data in plan order |
| Protocol.ScheduleDoesNotMatter | internal/app/query_service.go:127-162 | so any two such runs, however scheduled, reply alike |
| Protocol.SlotWrittenOnceByItsWorker | internal/app/query_service.go:125-145 | a slot changes only in its own worker's write, from empty, to what its repository answered |
| Protocol.NoReadBeforeAllExit | internal/app/query_service.go:149-151 | when the slots are read every worker has exited and, unless an error was stored, every slot holds its repository's answer; nothing follows the reply |
| Protocol.ObservedExactlyOnce | internal/app/query_service.go:131-139 | in every run that replies, the observer has been called exactly once per segment |
| Protocol.ErrorIsRootCause | internal/app/query_service.go:112-114 | the replied error is the stored one; it reports a missing repository, a failure answered under a live context, or one answered under a context that showed how the caller itself ended; nothing induced by the group's cancellation, under any name |
| Protocol.NoInducedCancellation | internal/app/query_service.go:112-151 | so, with repositories that report a cancellation only once their context is done, no cancellation is replied while the caller stays |
| Protocol.CallerStaysMeansTruth | internal/app/query_service.go:112-162 | repositories that fail only with their contexts make no query fail while the caller stays |
| Protocol.OnlyCallersEndQueries | internal/httpapi/errors.go:60-71 | repositories that fail only with their contexts leave the true merge or, for a caller that timed out, a deadline and 504, for one that cancelled, a cancellation and 500 |
| Protocol.CallersEndAnyTime | internal/app/query_service.go:125-125 | a caller may time out or cancel at any moment before the reply, and the shared context then shows that |
| Protocol.CallersEndIsReported | internal/app/query_service.go:125-151 | a run of one segment in which the caller's end is what the query replies with |
| Protocol.RunsNeverStick | internal/app/query_service.go:127-151 | no run without a reply is stuck, and no run exceeds 6 steps per segment plus 3 |
| DayLoop.EachDay | internal/adapter/memory/repository.go:35-46 | in any zone in which it ends, the loop calls back at each instant `AddDate` leads to up to the start of the last day, in order, until one call fails |
| DayLoop.NarrowEnds | internal/adapter/memory/repository.go:36-46 | it ends wherever offsets are less than a day apart |
| DayLoop.StopsAtFirstFailure | internal/adapter/memory/repository.go:40-44 | such a walk fails iff some day fails after all before went through, and then with that day's error |
| DayLoop.WalkMeetsRange | internal/adapter/memory/repository.go:35-46 | over a range whose midnights are there and compare, the days met are the range's, each once, in order |
| DayLoop.MeetsRangeExactly | internal/adapter/memory/repository.go:35-46 | where clocks run on after a skipped midnight, the days met are the range's iff every day before the last has a midnight |
| DayLoop.OtherwiseLosesLastDay | internal/adapter/memory/repository.go:40 | and where clocks keep step, otherwise they are all but the last |
| DayLoop.SkippedMidnightLosesDay | internal/adapter/memory/repository.go:40 | a concrete zone east of UTC in which the loop over -1..2 meets -1, 0, 1 |
| DayLoop.SpringForwardKeepsStep | internal/adapter/memory/repository.go:40 | that zone meets the conditions of the two statements above, so its loss is their general one |
| DayLoop.SkippedMidnightRepeatsDay | internal/adapter/memory/repository.go:40 | a concrete zone west of UTC in which the loop over -1..1 meets -1, -1, 0 |
| DayLoop.DatesAreConsecutive | internal/adapter/memory/repository.go:35-46 | the dates of a range are calendar successors of one another with consecutive numbers |
| Memory.DayNumberOfMidnight | internal/adapter/memory/repository.go:26-33 | at a local midnight of day n the truncating division gives exactly n, before 1970 too |
| Memory.DayNumberIsDayShown | internal/adapter/memory/repository.go:26-33 | at every instant it gives the number of the date shown |
| Memory.Retail | internal/adapter/memory/repository.go:48-69 | the loop gives the first context error, or the sums of the daily formula over the days it meets; over a walkable range, over the range |
| Memory.Renovation | internal/adapter/memory/repository.go:71-100 | the same for the six funnel stages |
| Memory.FunnelDay | internal/adapter/memory/repository.go:75-93 | one call back checks the context and extends the six sums by its day |
| Memory.RetailGivenExactly | internal/adapter/memory/repository.go:48-69 | where clocks keep step the loop gives the range's sums if no midnight before the last day is skipped, and fewer orders otherwise |
| Memory.SumDaysSplit | internal/adapter/memory/repository.go:36-46 | sums over a range are the sums over its consecutive pieces |
| Memory.PricesCycle | internal/adapter/memory/repository.go:58-58 | prices run through 129900 to 199899 cents, one by one as seeds grow, and start again |
| Memory.RetailTotalsBounded | internal/adapter/memory/repository.go:56-62 | over n days: 60n to 100n orders and at most 19989900n cents |
| Memory.FunnelTotalsDescend | internal/adapter/memory/repository.go:81-93 | leads >= invited >= measured >= signed >= started >= completed >= 3n over n days |
| Memory.TotalsNeverWrap | internal/adapter/memory/repository.go:60-93 | over at most 3652425 days no unchecked addition wraps |
| Memory.FourDigitSpan | internal/domain/model.go:77-86 | parseable dates span at most 3652425 days |
| Memory.OffsetsOver41Days | internal/adapter/memory/repository.go:57-81 | 41 consecutive offsets sum to 820 iff the uint64 sum does not wrap inside the window |
| Memory.Totals41Days | internal/adapter/memory/repository.go:57-82 | 41 consecutive days total 3280 orders, 2255 leads and 3280 prices iff the uint64 sum does not wrap inside them |
| Service.NewQueryService | internal/app/query_service.go:40-76 | exactly what is accepted; otherwise invalid argument; the service owns a fresh, equal copy of the map |
| Service.CallerMutatesLater | internal/app/query_service.go:64-67 | later changes to the caller's map leave the service's untouched |
| Service.MissingRepositoryExactly | internal/app/query_service.go:132-137 | a planned segment lacks a repository iff an explicit source was requested that the map lacks; never for auto |
| Service.RetailAnswersDayByDay | internal/app/query_service.go:115-163 | every retail run that replies with data replies with the exact day-by-day routed sums |
| Service.FunnelAnswersDayByDay | internal/app/query_service.go:167-234 | the same for every stage of the funnel |
| Service.RetailFormulaIgnoresPlan | internal/app/query_service.go:148-162 | the daily formula's sums over the planned segments merge to its sums over the range, for every source, clock and window, without overflow |
| Service.FunnelFormulaIgnoresPlan | internal/app/query_service.go:200-233 | the same for the funnel |
| Service.MemoryRetailIgnoresPlan | internal/bootstrap/app.go:146-153 | over walkable segments what the day loops give merges to the aggregate over the whole range, for every source, clock and window; so does one loop where the whole range walks |
| Service.MemoryFunnelIgnoresPlan | internal/bootstrap/app.go:146-153 | the same for the funnel |
| Service.MemoryRetailExactly | internal/bootstrap/app.go:146-153 | where clocks keep step the merged retail answer is that aggregate iff no planned segment has a skipped midnight before its last day |
| Service.MemorySourcesCanDisagree | internal/bootstrap/app.go:146-153 | a concrete zone, range and clock at which sources hive and auto give different orders, for every organisation |
| Service.SteadySegmentsWalk | internal/config/config.go:113-117 | requests about days since which the zone has kept one offset plan and walk, whatever its clocks did before |
| Service.MemoryRetailRunsReplyAlike | internal/bootstrap/app.go:146-153 | over walkable segments every retail run over the day loops replies with that aggregate, for every source, clock, window and schedule, or with exactly its caller's timeout (504) or cancellation (500) |
| Service.MemoryFunnelRunsReplyAlike | internal/bootstrap/app.go:146-153 | the same for the funnel |
| Service.SqlFailureClass | internal/httpapi/errors.go:60-71 | with all repositories present and the caller there, a query over SQL repositories fails with 503 or 504, or in the merge |
| Service.SqlTimeoutClass | internal/httpapi/errors.go:60-71 | when the caller timed out, the same over drivers that report a cancellation only where their context was cancelled |
| Statements.HiveLiteralSafe | internal/adapter/sqlrepo/statements.go:24-41 | the byte loop accepts exactly non-empty strings of letters, digits, underscore and hyphen |
| Statements.ValidateIdentifiers | internal/adapter/sqlrepo/statements.go:52-59 | the loop accepts iff every identifier matches the pattern |
| Statements.RenderPanicsExactly | internal/adapter/sqlrepo/statements.go:131-160 | rendering panics iff the dialect is the literal one and the organisation has an unsafe byte; printed days never do |
| Statements.DialectsAgreeOn | internal/adapter/sqlrepo/statements.go:65-160 | per template: the literal text is the bound text with placeholders filled in order by quoted arguments; both read as the template with the organisation, first and last day; three placeholders and no quote in one text, six quotes and no placeholder in the other |
| Statements.DialectsAgree | internal/adapter/sqlrepo/statements.go:87-160 | the same, in full, for both statements with their own columns and table, and every identifier triple, which both builders accept alike |
| Statements.IdentifierLetters | internal/adapter/sqlrepo/statements.go:52-59 | identifiers, letter by letter |
| Reading.RetailReads | internal/adapter/sqlrepo/statements.go:65-69 | read word by word, the retail statement asks for the sums of order_count and sales_amount of the table where org_id = the organisation and stat_date >= the first and <= the last day |
| Reading.RenovationReads | internal/adapter/sqlrepo/statements.go:71-79 | the renovation statement asks for the six stage counts, in their order, under the same conditions |
| HttpApi.AcceptedQuery | internal/httpapi/handler.go:147-167 | what an accepted request guarantees below: source, safe organisation, ordered range that prints as requested |
| HttpApi.RefusedExactly | internal/httpapi/handler.go:147-167 | a request is refused, as invalid argument and 400, iff one of its parameters is |
| HttpApi.AcceptedExactly | internal/httpapi/handler.go:147-167 | acceptance on the four texts: a public source name, an organisation of safe characters, and two existing dates in order within the limit as the code counts it |
| HttpApi.SegmentsDTO | internal/httpapi/handler.go:169-179 | one reported segment per planned segment, in order |
| HttpApi.ReportedSegmentsPartition | internal/httpapi/handler.go:169-179 | reported texts start and end as requested, and each next start is the calendar day after the previous end |
| HttpApi.ReportedSourcesAreRouted | internal/httpapi/handler.go:169-179 | a reported segment names, publicly, the engine its days are routed to |
| HttpApi.AcceptedQueriesRender | internal/adapter/sqlrepo/statements.go:131-160 | every accepted request plans, and every planned query renders in both dialects without the panic, with the agreement above in full |
| Answers.DateFilterSelectsRange | internal/adapter/sqlrepo/statements.go:65-79 | the statements' date bounds, compared as texts, select exactly the segment's days |
| Answers.MeetsFilters | internal/adapter/sqlrepo/statements.go:65-79 | the three conditions, evaluated on a row's texts, hold of exactly the organisation's rows on the segment's days |
| Answers.RetailStatementAsks | internal/adapter/sqlrepo/repository.go:43-59 | in either dialect an engine that holds the table answers the retail statement with the sums of orders and sales over the query's days |
| Answers.RenovationStatementAsks | internal/adapter/sqlrepo/repository.go:61-76 | the same for the six stages, in scanning order |
| Answers.AcceptedRetailIsAnswered | internal/app/query_service.go:115-163 | for every accepted request, a run over engines that answer the SQL text they are sent replies, when with data, with the exact day-by-day routed sums |
| Answers.AcceptedFunnelIsAnswered | internal/app/query_service.go:167-234 | the same for every stage of the funnel |
| HttpApi.MemoryModeSourcesAgree | internal/bootstrap/app.go:146-153 | in memory mode requests differing only in source get identical data from the day loops, at any clocks and windows, where the planned segments walk |
| Config.DurationDefault | internal/config/config.go:497-510 | durations are positive |
| Config.PortDefault | internal/config/config.go:524-533 | ports are in 1..65535 |
| Config.LoadPool | internal/config/config.go:403-432 | pool limits and lifetimes are usable |
| Config.LoadTLSFiles | internal/config/config.go:434-467 | certificate and key come together and every named file exists |
| Config.LoadedIsSound | internal/config/config.go:102-225 | every accepted configuration satisfies all later constructor checks, and real mode names all engines |
| Config.LoadedAsWritten | internal/config/config.go:102-225 | every kept field says what its own key says, or the documented default where the key is unset |
| Config.LoadsExactly | internal/config/config.go:102-225 | an environment loads as c iff c is what its keys say, every setting is usable, named files exist and real mode names its engines |
| Lifecycle.CloseAll | internal/bootstrap/app.go:199-205 | closes every database in reverse, none skipped after a failure, and carries exactly their errors |
| Lifecycle.Application.Close | internal/bootstrap/app.go:53-66 | the first call does that; later calls close nothing and return the kept error |
| Lifecycle.CloseTwice | internal/bootstrap/app.go:53-66 | a repeated close adds no event and returns the same error, whatever closing would do now |
| Lifecycle.RealRepositories | internal/bootstrap/app.go:161-197 | success iff all three open and the identifiers are valid, and then each engine has its own database, dialect and tables; on failure what was opened is closed again, and no closing error is lost |
| Lifecycle.OpenRepositories | internal/bootstrap/app.go:144-159 | per data mode: success, which repository each source has, and ownership of exactly the opened databases |
| Lifecycle.BuildWith | internal/bootstrap/app.go:84-142 | exactly when building succeeds; then the application owns the open databases and its handler routes, limits and stores as configured; on failure they are closed in reverse |
| Lifecycle.BuiltToAnswer | internal/bootstrap/app.go:110-141 | the built handler meets what the query theorems ask: valid names, a historical source that is not StarRocks, and for each source its own repository and dialect |
| Lifecycle.LoadedConfigurationsBuild | internal/bootstrap/app.go:104-139 | behind a loaded configuration memory mode always builds, and real mode fails iff an open or the ping does |
| Lifecycle.Serve | cmd/server/main.go:53-72 | Shutdown and Serve's result, or Serve's result alone, come before closing; the error reports all of them and nothing else |
| Lifecycle.Run | cmd/server/main.go:35-73 | on every path the journal is the openings, what happened between, and the closings; no closing error and no cause is lost; what is served is what the loaded configuration describes, and Shutdown gets the configured time |
| Lifecycle.RunsCloseWell | cmd/server/main.go:35-73 | each opened database is closed exactly once, in reverse opening order, after everything else |
| Lifecycle.UniqueRepositories | internal/bootstrap/app.go:234-253 | the distinct repositories of the three sources, each once, in the order of their first use |
| Population.LoadCountryMetadata | scripts/generate_world_population_chart.py:42-64 | exactly the non-aggregate countries, each as its last record describes it |
| Population.CountryFields | scripts/generate_world_population_chart.py:52-60 | what stands in for a missing name, region and position |
| Population.LatestCountryPopulations | scripts/generate_world_population_chart.py:67-99 | raises iff a known country's non-null record has an infinite date, or a year and an infinite value; otherwise lists a table of the first record of the latest year of each known country |
| Population.SeenInOrder | scripts/generate_world_population_chart.py:85-97 | of two listed countries the earlier has a usable record before any of the later |
| Population.OneItemPerCountry | scripts/generate_world_population_chart.py:72-99 | the list has exactly one item per known country with a usable record |
| Population.SortDescendingSorts | scripts/generate_world_population_chart.py:99 | sorting keeps every item and orders by non-increasing population |
| Population.SortDescendingIsStable | scripts/generate_world_population_chart.py:99 | items of equal population keep their order |
| Population.TableIgnoresOrder | scripts/generate_world_population_chart.py:72-97 | when no two usable records share country and year, the table is independent of record order |
| Population.OrderDecidesTies | scripts/generate_world_population_chart.py:85-97 | when two do, the first one wins, so the order matters |

## Left out

- Database drivers, DSN and TLS construction, and HTTP serving: opens, pings, queries, listening and serving enter as arbitrary outcomes.
- The internals of error groups, contexts and `sync.Once`: their documented behaviour is the step relation; a second reporter never waits for the first, which only adds interleavings.
- FNV-1a hashing: an organisation's seed is an arbitrary uint64.
- The decimal library: money is whole cents, exact and unbounded.
- Days without a midnight among those a theorem names: the ends of the range, for automatic requests today, the cutoff and the day before it, for the day loop the days of the range. Today's and the loop's are covered beyond that by the exact conditions above; a range whose own ends lack a midnight is not.
- Midnights compared across an offset jump of a day or more.
- Fractions of a second of the clock; overflow of Go's own date arithmetic for windows of more than 10^14 days.
- The row an SQL engine returns: an engine is assumed to answer the text it is sent as `Sql.Asked` reads it, over rows whose dates have four-digit years and whose columns are named as in the schema, or to fail. Dates are compared as texts.
- Other SQL (escapes, comments, other clauses): the reader knows placeholders, quoted literals and a SELECT of sums with comparisons, which is all the templates contain.
- `Config.LoadedIsSound`: leaves to `Config.LoadsExactly` what the fields say; of several unusable keys, which one is reported is in the model but not in a theorem. Fields of engine sections that only reach drivers are read but not kept.
- `readiness.Ping` and the concurrency of start-up pings: a start-up ping is one outcome.
- API-key hashing, request IDs, logs, metrics and redaction: plumbing without a property across functions.
- The script's page fetching, number formatting and HTML: user interface and network.
