# Verified model of the call-quality daemon

This project models, in Dafny, the logic of the Go daemon under `backend-go/`, which ingests call-quality events,
stores them in SQLite, filters and pages them, and raises alarms. It proves what that logic promises over all inputs
and all runs. `dafny verify dfyconfig.toml` checks everything.

Where the Go code changes state step by step, the model has classes and methods with loops. Each of them is proved
against a specification function, and the theorems are about those functions. Where the code is recursive expressions,
the model is functions and lemmas.

| directory | what it models |
|---|---|
| `filter/` | the filter language: lexer, Pratt parser, evaluator, SQL compiler, the name map, and the transport form of a search |
| `alarm/` | the bounded history of drop counters against what was really dropped, and the alarm engine's hysteresis per rule |
| `db/` | the writer with its row-id maps, the trim to the last N calls, and the expiry sweep |
| `state/` | the registry of active streams, when they were last heard, ghost sweeping, draining, made-up final reports, and live records beside their database rows |
| `ingest/` | the pipeline that drives writer and registry, and the ghost sweeper |
| `worker/` | the track-list reconciler: the protocol as interleaved steps, and the worker's own methods |
| `stats/` | the active-stream list: sort keys, stable sorting, filtering, paging |
| `pvqa/`, `api/` | detector counting by name, the R-factor, and the CSV table |

`Lists.dfy`, `Results.dfy`, `Texts.dfy` and `ThreeValued.dfy` hold what the modules share.

## How the environment appears

- Strings are sequences of bytes, one `char` per byte.
- The clock, uptimes, database outcomes and network outcomes are parameters. `Writer.Outcome` says which statement of a
  transaction fails; a failed transaction leaves the tables as they were. A new row id is any id not in use.
- `FilterEvaluate.Host` carries what the Go and SQLite runtimes do with floats and non-ASCII text: rounding to float64,
  parsing and printing floats, lower-casing, SQLite's conversions. `FilterMeaning.Faithful` lists the two facts about it
  that the meaning theorem needs: small integers convert exactly, and ASCII is lowered as usual. `AgreementExact` also
  needs that one half is a float.
- SQL is three-valued. A NULL operand makes an operator NULL, except where AND and OR are decided by the other side.

## What turned out false, and when exactly it holds

- **A page can panic.** `PaginateActive` computes the end of a page as `offset + count` in 64 bits. If that overflows
  while the offset lies inside the list, Go is asked for a slice of negative length. `ActiveList.PageExact` shows that
  this is the only way a page fails.
- **The reconciler needs a list without repetitions.** `setEqual` checks one direction and the lengths. It judges every
  current list correctly exactly when the desired list repeats nothing (`TrackSync.SetEqualExact`), and the protocol
  converges in all runs exactly then (`TrackSync.ConvergesExactly`). The store drops empty patterns but not repeated ones.
- **The two expiry queries differ on NULL stream ids.** The older query uses NOT IN, so a recent report row with a NULL
  stream id makes it expire nothing. `Cleanup.QueriesAgree` gives the exact condition.
- **The sweep does not touch the writer's maps.** It keeps them consistent exactly when it deletes no mapped stream
  (`Cleanup.SweepKeepsMapsIff`). Otherwise the next interval of such a stream is stored under a row id that no longer
  exists (`Cleanup.StaleEntryOrphans`). A run from empty tables gets there: open a stream, let it expire without a
  report, sweep (`Cleanup.SweepCanOrphan`).
- **A filter that fails in memory may select in SQL.** `1/0 == 1 || 1 == 1` is an error in Go and true in SQL
  (`FilterMeaning.DivisionByZeroDiffers`). Evaluation succeeds exactly when every variable it reaches is in the record,
  every arithmetic it reaches has numbers, and no divisor it reaches is zero (`FilterEvaluate.EvaluatesIff`); the two
  lists differ exactly on records where one of these guards fails although the row is selected
  (`FilterMeaning.DiffersExactly`). A filter whose kinds fit the record's fields and which divides by nonzero constants
  only never fails (`FilterEvaluate.TypedRuns`), so it agrees on every record (`FilterMeaning.TypedAgrees`).
- **A live record is not its database row.** A figure the daemon does not have is 0 in memory and NULL in SQL, so
  `sevana_mos < 3` keeps the live record and does not select the row (`FilterMeaning.MissingFigureDiffers`).
  All filters treat record and row alike exactly when the row has the record's own value in every column
  (`FilterAgreement.AgreementExact`). `LiveRecords.FieldsThatAgree` says for each field when that is so: `ssrc` never,
  a MOS when it was measured, the silence ratio when anything was counted, start and duration when the stream's start and
  its first report's give the same, the rest always or as far as the stream and agent rows are up to date.
- **The sweep can delete a fresh report.** The expired streams are looked up before they are deleted. A report written
  in between is lost exactly when it ends at or after the cutoff and its stream is mapped and was found expired
  (`Cleanup.GapLosesReport`); a stream opened long before its first report gets there (`Cleanup.GapCanLose`).
- **The transport restores a search** exactly when the sort field has no slash and no `%2F` and the expression is
  trimmed, valid UTF-8 (`FilterTransport.RoundTripExact`).

## Model

| member | source | states |
|---|---|---|
| FilterLexer.Tokenize | backend-go/internal/filter/expression.go:58-121 | the position-advancing loop gives the token list, or the first error, that lexing the text defines |
| FilterLexer.ScanNumberAt | backend-go/internal/filter/expression.go:123-167 | a number is scanned in place as on the rest of the text, with the same hex, integer, float, IPv4 and error cases, and the position after it |
| FilterLexicon.LexExact | backend-go/internal/filter/expression.go:58-167 | the lexer returns a token list if and only if the text is maximal spellings of those tokens, in order, with optional white space |
| FilterLexicon.WrittenLexes | backend-go/internal/filter/expression.go:58-167 | every list of expressible tokens, written with spaces between, lexes back to itself |
| FilterLexicon.ExpressibleLeaves | backend-go/internal/filter/expression.go:58-167 | which strings, names and whole numbers have a spelling: no quote inside, identifier shape, 0 to the largest int64 |
| FilterCharacters.Classes | backend-go/internal/filter/expression.go:58-167 | the character classes of the tokenizer by their ASCII codes |
| FilterCharacters.LogicSpellings | backend-go/internal/filter/expression.go:58-121 | what the operators of or, and, equality and containment lex to |
| FilterCharacters.OrderSpellings | backend-go/internal/filter/expression.go:58-121 | what `<`, `<=`, `>` and `>=` lex to |
| FilterCharacters.ArithmeticSpellings | backend-go/internal/filter/expression.go:58-121 | what `+`, `-`, `*` and `/` lex to |
| FilterCharacters.HexValues | backend-go/internal/filter/expression.go:123-167 | the value of each hexadecimal digit |
| FilterCharacters.DecimalLiterals | backend-go/internal/filter/expression.go:123-167 | decimal digits lex to their number, past 64 bits to the largest int64 |
| FilterCharacters.IPv4Exact | backend-go/internal/filter/expression.go:123-167 | what is taken for an address is exactly the dotted decimal text of four bytes |
| FilterCharacters.DottedLiterals | backend-go/internal/filter/expression.go:123-167 | a dotted text is a float if it parses as one, and otherwise, being an address, a string |
| FilterParser.ParseText | backend-go/internal/filter/expression.go:469-479 | tokenizing and then running the parser over its position gives what parsing the text defines, with the empty-expression and trailing-token errors |
| FilterParser.Parser.ParseExpression | backend-go/internal/filter/expression.go:411-434 | the method that moves `pos` reads what the recursive parser reads from the tokens left, stays within them, and terminates |
| FilterPrecedence.ThreeOperands | backend-go/internal/filter/expression.go:374-434 | with the classes written out (or; and; `== != ~`; `< <= > >=`; `+ -`; `* /`): of two operators between three operands the second takes the middle one if and only if it stands in a later class |
| FilterGrammar.ParseDerivation | backend-go/internal/filter/expression.go:400-465 | parsing the tokens of any derivation valid at a binding power rebuilds its tree and goes on with the rest |
| FilterGrammar.ParsedExpr | backend-go/internal/filter/expression.go:411-434 | whatever the parser returns has a derivation that yields exactly the tokens consumed and respects precedence and left associativity |
| FilterGrammar.ParserExact | backend-go/internal/filter/expression.go:382-465 | the parser accepts a token list with a tree if and only if the list is a, possibly over-parenthesised, printing of that tree |
| FilterGrammar.GrammarUnambiguous | backend-go/internal/filter/expression.go:374-434 | no token list reads as two trees |
| FilterGrammar.MinimalIsShortest | backend-go/internal/filter/expression.go:374-380 | parenthesising only where the binding powers demand it gives the shortest token list of a tree |
| FilterGrammar.ParserInvertsPrinter | backend-go/internal/filter/expression.go:374-479 | parsing the minimally parenthesised printing of any tree gives the tree, and no reading of it is shorter |
| FilterGrammar.ParseExact | backend-go/internal/filter/expression.go:469-479 | a text parses to a tree if and only if it spells a token list that reads as the tree |
| FilterGrammar.TextRoundTrip | backend-go/internal/filter/expression.go:58-479 | printing a tree with expressible leaves to text and parsing the text gives the tree |
| FilterSql.EmitsCompiled | backend-go/internal/filter/expression.go:258-312 | the emitter succeeds if and only if all names are known, and then prints the compiled SQL expression with the string literals in tree order |
| FilterSql.MarksMatchParams | backend-go/internal/filter/expression.go:265-312 | with columns free of question marks the text has as many marks as there are parameters |
| FilterSql.NoRegrouping | backend-go/internal/filter/expression.go:291-312 | with every column a single name, any SQL expression with the emitted lexemes, under any precedence, is the compiled one: the brackets leave no other grouping |
| FilterSqlText.TextSplits | backend-go/internal/filter/expression.go:265-312 | any tokenizer that splits at spaces, brackets and commas reads the emitted text as the lexemes of the compiled expression one after the other: none run together, none falls into a string or comment |
| FilterSqlText.PiecesSplit | backend-go/internal/filter/expression.go:265-312 | there is such a tokenizer: single delimiters and the runs between them |
| FilterColumns.EmitsExpanded | backend-go/internal/filter/expression.go:258-312 | the emitted text is the filter's SQL with every field's expression from the name map written out |
| FilterColumns.ExpandedSplits | backend-go/internal/filter/expression.go:265-312 | a tokenizer that splits at delimiters reads that text lexeme by lexeme, the columns' own lexemes included |
| FilterSqlReading.TextReads | backend-go/internal/filter/expression.go:252-312 | reading the emitted text by SQL's own operators, keywords, numbers and column names gives the lexemes of the filter's SQL expression |
| FilterSqlReading.KeepsIffTextSelects | backend-go/internal/filter/namemap.go:88-115 | whatever expression the emitted text can be taken for selects, with the emitted parameters, the row of exactly the records that evaluate and are kept |
| FilterColumns.OneReadingExact | backend-go/internal/filter/namemap.go:8-38 | no filter's text can be grouped in a second way if and only if every column is a name, a call, or has brackets of its own |
| FilterColumns.OpenColumnRegroups | backend-go/internal/filter/namemap.go:8-38 | a column with an operator outside brackets: twice the field has a second reading |
| FilterColumns.NameMapIs | backend-go/internal/filter/namemap.go:8-38 | what the name map gives for each of its 21 fields, silence ratio, start and duration as the expressions they are |
| FilterColumns.NameMapReadsOneWay | backend-go/internal/filter/namemap.go:8-38 | with the daemon's name map every filter has one reading |
| FilterColumns.KeepsIffSelectsBase | backend-go/internal/filter/namemap.go:88-115 | the agreement of memory and SQL over rows of the base tables, column expressions evaluated as SQL |
| FilterColumns.SilenceRatioIs | backend-go/internal/filter/namemap.go:8-10 | the silence-ratio expression is the floating-point share of silent packets, and NULL when none were counted |
| FilterMeaning.TakesItsStrings | backend-go/internal/filter/expression.go:265-312 | evaluating the SQL consumes exactly the tree's own parameters, in order, so each mark is bound to its own literal |
| FilterMeaning.ArithAgrees | backend-go/internal/filter/expression.go:556-588 | integer and float arithmetic that succeeds in Go gives the same value in SQL, truncating division included |
| FilterMeaning.OperatorAgrees | backend-go/internal/filter/expression.go:314-368 | each strict operator computes the same value on both sides |
| FilterOperators.IntegersCompare | backend-go/internal/filter/expression.go:590-650 | comparing integers that float64 holds compares them |
| FilterOperators.IntegersCompute | backend-go/internal/filter/expression.go:556-588 | integer arithmetic is addition, subtraction, multiplication and truncating division in 64 bits |
| FilterOperators.TruncDivExact | backend-go/internal/filter/expression.go:556-588 | what division leaves over is smaller than the divisor and on the dividend's side of zero |
| FilterOperators.WrapExact | backend-go/internal/filter/expression.go:556-588 | wrapping takes away a multiple of 2^64 |
| FilterOperators.FloatsCompare | backend-go/internal/filter/expression.go:590-650 | comparing floats compares them |
| FilterOperators.FloatsCompute | backend-go/internal/filter/expression.go:556-588 | with a float on either side the exact result is rounded |
| FilterOperators.TextsCompare | backend-go/internal/filter/expression.go:590-650 | texts are equal, or ordered by their first difference, a prefix first |
| FilterOperators.MixedCompare | backend-go/internal/filter/expression.go:590-650 | a number and a text compare as numbers if the text parses as one, and otherwise by the number's digits |
| FilterOperators.LikeFinds | backend-go/internal/filter/expression.go:314-368 | `~` holds if and only if the right text occurs in the left one at some place, lower-cased both |
| FilterOperators.FieldsCombine | backend-go/internal/filter/expression.go:314-368 | an operator between two fields combines the record's two values |
| FilterOperators.NumbersBelowTexts | backend-go/internal/filter/expression.go:252-312 | to SQL every number is less than every text |
| FilterOperators.OverflowsToFloat | backend-go/internal/filter/expression.go:252-312 | to SQL an integer product past 64 bits is a float, and a division by zero NULL |
| ThreeValued.RanksExact | backend-go/internal/filter/expression.go:291-312 | AND is the lower, OR the higher of two truth values with NULL between false and true, and NOT turns the order around |
| FilterMeaning.CompilingPreservesMeaning | backend-go/internal/filter/expression.go:258-368 | for every portable filter and any record and row that agree on the fields its evaluation looks at, if evaluating in memory gives a value, the three-valued SQL meaning of what is emitted is that value, short circuits over NULL included |
| FilterMeaning.KeepsIffSelects | backend-go/internal/filter/namemap.go:88-115 | where record and row agree on the fields read, the in-memory list keeps a record if and only if evaluation reaches no missing variable, no arithmetic on a string and no zero divisor, and the WHERE clause selects the row |
| FilterEvaluate.EvaluatesIff | backend-go/internal/filter/expression.go:314-368 | evaluation succeeds if and only if the guards it reaches hold: variable present, numeric operands, divisor not zero |
| FilterEvaluate.TypedRuns | backend-go/internal/filter/expression.go:314-368 | a filter with a kind, read off its fields' kinds, never fails and gives a value of that kind |
| FilterMeaning.DiffersExactly | backend-go/internal/filter/namemap.go:88-115 | the two lists differ on a record if and only if a guard fails and the row is selected |
| FilterMeaning.TypedAgrees | backend-go/internal/filter/namemap.go:88-115 | a filter with a numeric kind keeps exactly the records whose rows it selects |
| FilterMeaning.DivisionByZeroDiffers | backend-go/internal/filter/expression.go:556-588 | the converse fails: a filter that errors in memory and is therefore dropped, but is selected by SQL |
| FilterMeaning.MissingFigureDiffers | backend-go/internal/state/registry.go:241-304 | a figure that is 0 in the record and NULL in the row makes `field < 3` keep the one and not select the other |
| FilterAgreement.DisagreementShows | backend-go/internal/filter/namemap.go:88-115 | for any field, comparing it with the record's own value keeps the record and selects the row if and only if the row's value is equal in SQL |
| FilterAgreement.IntegerTestShows | backend-go/internal/filter/expression.go:556-588 | a filter that is true of integers and false of floats on either side, by what one half divides to |
| FilterAgreement.AgreementExact | backend-go/internal/filter/namemap.go:88-115 | all filters that suit their operands and evaluate treat record and row alike if and only if the row holds the record's value in every column they can name |
| Base64.DecodeInvertsEncode | backend-go/internal/filter/transport.go:104-113 | decoding inverts encoding in each alphabet of RFC 4648, sections 4 and 5; read with the other alphabet a text decodes to itself or fails |
| Base64.EncodingPadding | backend-go/internal/filter/transport.go:104-106 | an encoding is its symbols followed by exactly the padding its length asks for |
| Base64.SameBits | backend-go/internal/filter/transport.go:104-113 | three bytes and their four symbols are the same 24 bits |
| Base64.SymbolCodes | backend-go/internal/filter/transport.go:104-113 | the symbols of both alphabets, by their ASCII codes |
| Base64.LongTestVector | backend-go/internal/filter/transport.go:104-106 | a test vector of section 10 of RFC 4648 |
| FilterTransport.B64DecodeText | backend-go/internal/filter/transport.go:104-113 | the loop over the two alphabets returns the first decoding that is valid UTF-8, or nothing |
| FilterTransport.DecodeTextInverts | backend-go/internal/filter/transport.go:104-113 | for both alphabets, padded or not, decoding an encoding gives the text back if it is valid UTF-8 and the empty text otherwise |
| Utf8.ValidUtf8Exact | backend-go/internal/filter/transport.go:104-113 | a text is valid if and only if it is the UTF-8, by RFC 3629, of some Unicode scalar values |
| Utf8.SpacesExact | backend-go/internal/filter/transport.go:50-66 | which characters are white space |
| Utf8.TrimExact | backend-go/internal/filter/transport.go:50-66 | trimming takes white space off both ends, all of it and nothing else |
| FilterTransport.TransportForm | backend-go/internal/filter/transport.go:18-79 | the transport form of a search, and the search an empty form stands for |
| FilterTransport.AtoiSigned | backend-go/internal/filter/transport.go:50-66 | digits with a sign are a number in the range of int64, and anything else is refused |
| FilterTransport.SearchFilter.Parse | backend-go/internal/filter/transport.go:50-66 | the fields after parsing: nothing changes for fewer than four tokens, a bad number keeps its field, the payload keeps its slashes |
| FilterTransport.UncleanFieldLost | backend-go/internal/filter/transport.go:50-79 | a sort field with a slash, escaped or not, never comes back |
| FilterTransport.RoundTripExact | backend-go/internal/filter/transport.go:50-79 | parsing a printed search restores all five fields if and only if the field is clean and the expression is trimmed, valid UTF-8 |
| DropHistory.RunInvariant | backend-go/internal/alarm/drops.go:44-71 | in every reachable history each sample is a genuine event total, events left out are covered by a close sample, and tracking reaches back to the cutoff |
| DropHistory.NewestTotal | backend-go/internal/alarm/drops.go:44-57 | the newest sample carries the total of all events noted, as counted from one event to the next |
| DropHistory.Bounded | backend-go/internal/alarm/drops.go:58-71 | samples are ordered in time and total, any three span the spacing, all but the first lie within keep, so there are at most 2*(keep/spacing)+3 |
| DropHistory.WithinExact | backend-go/internal/alarm/drops.go:76-92 | the drops reported are those since an event at or before the window start that is the latest such event or less than the spacing before it, so none in the window is missed |
| DropHistory.RunRepresents | backend-go/internal/alarm/drops.go:44-92 | every ordered event history leaves samples that represent it in the sense the window query needs |
| TrueDrops.TotalCounts | backend-go/internal/alarm/drops.go:44-57 | measured against the packets really dropped: the total never exceeds them, and is all of them if and only if every restart of vq-core shows as a fall of the counter, or had nothing to lose |
| TrueDrops.WithinCounts | backend-go/internal/alarm/drops.go:76-92 | when restarts show, the answer to a window is the number of packets dropped after an event that measures the window |
| TrueDrops.CounterSums | backend-go/internal/alarm/drops.go:34-42 | the counter is the hardware drops of all devices and the buffer failures of all devices |
| DropHistory.History.Note | backend-go/internal/alarm/drops.go:44-71 | the method appends one event to the represented history and leaves the samples the specification gives |
| DropHistory.History.Within | backend-go/internal/alarm/drops.go:76-92 | the scan reports the restart-aware difference of totals since a base event that measures the window, and fails only without events |
| DropHistory.Drops | backend-go/internal/alarm/drops.go:34-42 | the loop sums the dropped-packet and failed-allocation counters of all capturers |
| AlarmEngine.EventLanguage | backend-go/internal/alarm/engine.go:86-124 | for any sequence of checks of a rule the notifications are a prefix of (alarm repeat* cleared)*, the alarm flag says whether the last was alarm or repeat, and alarms and repeats of an episode are a window apart |
| AlarmEngine.EpisodeBound | backend-go/internal/alarm/engine.go:105-118 | an episode of length T has at most 1 + T/window alarm and repeat notifications |
| AlarmEngine.EngineSpeaks | backend-go/internal/alarm/engine.go:86-124 | the notifications an engine has actually sent for a rule, among those of all rules, are in that language and spacing, and its status says what the last one was |
| AlarmEngine.EngineEpisodes | backend-go/internal/alarm/engine.go:105-118 | the bound holds for every episode in what the engine has sent for a rule |
| AlarmEngine.NeverSilent | backend-go/internal/alarm/engine.go:98-118 | after a usable measurement above the limit of a rule for high values, or below that of a rule for low ones, the rule is in alarm and was notified less than a window ago; after any other usable one it is not in alarm |
| AlarmEngine.RaisesAtOnce | backend-go/internal/alarm/engine.go:98-118 | outside an alarm a usable measurement raises it if and only if it is past the limit |
| AlarmEngine.SentCarries | backend-go/internal/alarm/engine.go:98-124 | what is sent carries the rule, the measured value and samples, and the time |
| AlarmEngine.UnusableKeepsState | backend-go/internal/alarm/engine.go:88-104 | a failing or unmeasured tick sends nothing and leaves alarm state and times alone |
| AlarmEngine.Engine.Evaluate | backend-go/internal/alarm/engine.go:88-121 | one rule's new status and the event to send |
| AlarmEngine.Engine.Tick | backend-go/internal/alarm/engine.go:86-124 | one tick checks every rule once, in order, and sends exactly their events |
| Tables.DeleteStreamsByIds | backend-go/internal/db/cleanup.go:29-49 | the chunked deletes remove the listed streams and their rows from all four tables, and nothing else |
| Tables.DeleteTwice | backend-go/internal/db/cleanup.go:29-49 | deleting in two batches is deleting the union |
| Tables.FilterRemains | backend-go/internal/db/cleanup.go:29-49 | filtering a table leaves exactly the rows to keep, each as often as it was and in the old order |
| Tables.DeleteLeavesOthers | backend-go/internal/db/cleanup.go:29-49 | so deleting streams does in all four tables |
| Calls.EvictedIsTail | backend-go/internal/db/writer.go:401-447 | the calls with at least N more recent ones are the ranking from place N on |
| Calls.CallKeyExact | backend-go/internal/db/writer.go:394-400 | two streams are of one call if and only if they share a non-empty Call-ID or are the same stream without one |
| Calls.QueryRanking | backend-go/internal/db/writer.go:405-429 | the grouping query lists every finished call once, by latest end and then key, descending |
| Calls.TrimKeepsTheNewest | backend-go/internal/db/writer.go:394-480 | trimming leaves exactly min(N, all) finished calls, each more recent than every evicted one |
| Calls.TrimRemovesExactly | backend-go/internal/db/writer.go:440-480 | trimming removes every row of evicted calls' streams from all four tables; every other row stays, as often and in the order it was |
| Calls.TrimIsStable | backend-go/internal/db/writer.go:401-480 | trimming again changes nothing |
| Writer.DbWriter.OpenStreamAt | backend-go/internal/db/writer.go:116-139 | a cached stream keeps its id, a new one gets an unused id in the table and both maps, a failure changes nothing |
| Writer.DbWriter.AddInterval | backend-go/internal/db/writer.go:145-152 | the whole new state of tables and maps for each outcome of the inserts |
| Writer.DbWriter.AddFinal | backend-go/internal/db/writer.go:159-175 | the whole new state: purge on a non-matching report, otherwise insert, SIP update and trim, stopping at the first failure |
| Writer.DbWriter.AddAudio | backend-go/internal/db/writer.go:180-197 | audio is stored under the row its stream, or else its endpoint, maps to, and silently dropped without one |
| Writer.DbWriter.PurgeStream | backend-go/internal/db/writer.go:371-390 | rows and both map entries of the stream go together, or nothing does |
| Writer.DbWriter.TrimToLastNCalls | backend-go/internal/db/writer.go:401-480 | ranking, batched id lookup, batched delete and forgetting give the trimmed database and maps without the evicted ids |
| Writer.DbWriter.ForgetDbIds | backend-go/internal/db/writer.go:484-498 | the loop drops exactly the map entries of the given row ids, and their endpoints |
| Writer.DbWriter.MaybeUpdateSip | backend-go/internal/db/writer.go:500-521 | a report with a Call-ID overwrites Call-ID and peers of its mapped stream; any other report changes nothing |
| WriterRuns.StepKeeps | backend-go/internal/db/writer.go:116-197 | every operation, failing or not, keeps maps and tables consistent |
| WriterRuns.RunKeepsConsistent | backend-go/internal/db/writer.go:116-498 | over every run the stream map leads to live rows of the same identity, endpoint entries are backed by it, and audio lies with a stream of its 5-tuple |
| WriterRuns.MapIsInjective | backend-go/internal/db/writer.go:116-139 | two mapped streams never share a row |
| WriterRuns.RunOwns | backend-go/internal/db/writer.go:116-498 | every row stored in a session belongs to a stream still in the map |
| WriterRuns.OnlyMatchingFinals | backend-go/internal/db/writer.go:74-83 | with a store filter every statistics row stored in a run has matching peers |
| WriterRuns.NonMatchLeavesNothing | backend-go/internal/db/writer.go:159-175 | after a successful non-matching final no row stored in this session is left for the stream in any table, nothing lies under the row id it had, what audio of the session remains lies under other streams' rows, and the map has no entry for it, whatever came before |
| WriterRuns.LimitHolds | backend-go/internal/db/writer.go:159-175 | after a successful matching final with limit N there are exactly min(N, all) finished calls, each newer than every call that went |
| WriterRuns.TrimMeans | backend-go/internal/db/writer.go:401-480 | a successful trim to n keeps exactly min(n, all) finished calls, each ended later than every call that went, and of two that ended together the one with the larger key; the streams of the calls that went go with all their rows and map entries, and no other row does |
| WriterRuns.MatchesExact | backend-go/internal/db/writer.go:74-83 | a report matches if and only if some pattern occurs in one of its lower-cased peers |
| WriterRuns.FinalAdds | backend-go/internal/db/writer.go:159-175 | without a limit a stored final adds its own row under its stream's id and no other |
| WriterRuns.AudioAdds | backend-go/internal/db/writer.go:180-197 | under which row a chunk is stored, with its own times and sound, and when it is not |
| WriterRuns.NoCallIdKeeps | backend-go/internal/db/writer.go:500-513 | a report without a Call-ID leaves every stream row as it was |
| Cleanup.QueriesAgree | backend-go/internal/db/cleanup.go:83-97 | the query in use equals the older NOT IN query if and only if no recent report has a NULL stream id or nothing is expired |
| Cleanup.QueryExpired | backend-go/internal/db/cleanup.go:83-97 | the query lists every expired stream once |
| Cleanup.ExpiredExactly | backend-go/internal/db/cleanup.go:83-97 | a stream expires if and only if everything stored for it lies before the cutoff, and something is stored, or it was created before the cutoff or at no known time |
| Cleanup.RemoveOldRecords | backend-go/internal/db/cleanup.go:114-161 | for every outcome of the query, of each chunk and of each of the three event deletes: which chunks commit, how many expired streams are gone, which event tables are cut and that nothing else is deleted, the statistics reported, and the complete sweep when nothing fails |
| Cleanup.DeleteEvents | backend-go/internal/db/cleanup.go:143-160 | the event deletes before the first that fails have cut their tables, those after it have not |
| Cleanup.SweepRemovesExactly | backend-go/internal/db/cleanup.go:114-161 | exactly the rows of expired streams and the old events go, every other row stays as often and in the order it was, no orphan is made and nothing is left expired |
| Cleanup.ExpiredGrows | backend-go/internal/db/cleanup.go:83-97 | a later cutoff expires at least as much |
| Cleanup.SweepTwice | backend-go/internal/db/cleanup.go:114-161 | sweeping at c1 and then at a later c2 is sweeping at c2; in particular the sweep is idempotent |
| Cleanup.SweepKeepsMapsIff | backend-go/internal/db/cleanup.go:114-161 | the sweep leaves the writer's maps consistent if and only if it deletes no mapped stream |
| Cleanup.StaleEntryOrphans | backend-go/internal/db/writer.go:339-368 | a report for a stream whose row was swept is stored as an orphan |
| Cleanup.SweepCanOrphan | backend-go/internal/db/cleanup.go:114-161 | for any creation time before the cutoff and any row id, a run from empty tables after which a sweep leaves a map entry without its row and the next interval becomes an orphan |
| Cleanup.GapLosesExactly | backend-go/internal/db/cleanup.go:99-142 | deletes that use an earlier query remove a row at or after the cutoff if and only if a stream the query found has got one since |
| Cleanup.GapLosesReport | backend-go/internal/db/cleanup.go:99-142 | an interval report written in the gap is lost if and only if it is stored, is recent, and its stream is mapped and was found expired |
| Cleanup.GapCanLose | backend-go/internal/db/cleanup.go:99-142 | a run from empty tables in which that happens, for any times and row id |
| Registry.SynthesizeFinal | backend-go/internal/state/registry.go:133-182 | the accumulating loop gives the sums of all reports and the last report's quality and peers |
| Registry.MakeRecord | backend-go/internal/state/registry.go:241-304 | a live record agrees with the final report that would be made up now on every counter, quality and peers |
| Registry.CountersSum | backend-go/internal/state/registry.go:133-182 | each counter of the sum is the sum of that counter over all reports |
| Registry.FinalSpans | backend-go/internal/state/registry.go:133-182 | the made-up final of reports in time order starts with the first, ends with the last and has the quality and peers of the last |
| LiveRecords.FieldsThatAgree | backend-go/internal/state/registry.go:241-304 | for each of the 19 fields when a live record and the row of the final made up for it give filters the same value |
| LiveRecords.MakesPair | backend-go/internal/state/registry.go:241-304 | every stream with reports, its map of filter values and its joined row satisfy what that theorem assumes |
| LiveRecords.LiveFilterAgrees | backend-go/internal/filter/namemap.go:88-115 | a filter that reads only agreeing fields keeps the live record if and only if it runs and its SQL selects the row |
| LiveRecords.StoredSip | backend-go/internal/db/writer.go:500-513 | a stored interval with a Call-ID leaves its stream's row with the report's Call-ID and peers |
| Registry.ActiveStreamRegistry.OnStreamDetected | backend-go/internal/state/registry.go:48-56 | the whole new state; a known stream is left alone |
| Registry.ActiveStreamRegistry.OnReport | backend-go/internal/state/registry.go:59-70 | the report is appended to its stream, which is created if unknown |
| Registry.ActiveStreamRegistry.OnFinished | backend-go/internal/state/registry.go:73-80 | the stream leaves the registry and is counted as finished |
| Registry.ActiveStreamRegistry.NoteUptime | backend-go/internal/state/registry.go:85-93 | a restart is reported if and only if the uptime fell |
| Registry.ActiveStreamRegistry.SweepGhostsAt | backend-go/internal/state/registry.go:101-112 | exactly the streams idle for too long leave, with a final for each that has reports, in order of first appearance |
| Registry.ActiveStreamRegistry.DrainAll | backend-go/internal/state/registry.go:115-118 | every stream leaves, with finals in order of first appearance |
| Registry.ActiveStreamRegistry.OrderedEntries | backend-go/internal/state/registry.go:225-232 | all streams in order of first appearance |
| Registry.AscendingIsInOrder | backend-go/internal/state/registry.go:225-232 | there is only one such order |
| LastHeard.HeardIsSeen | backend-go/internal/state/registry.go:48-130 | over every run the registry holds exactly the streams that the events alone say are there, each with the time it was last heard: its last interval report, or its detection |
| LastHeard.SweepTakes | backend-go/internal/state/registry.go:101-112 | a sweep takes exactly the streams last heard at least the idle time ago |
| LastHeard.OrderIsEntry | backend-go/internal/state/registry.go:48-70 | the order numbers are in the order in which the streams entered |
| LastHeard.RestartSeenExactly | backend-go/internal/state/registry.go:85-93 | a restart is seen if and only if the uptime is less than the one heard last |
| LastHeard.CountsAdd | backend-go/internal/state/registry.go:48-130 | streams started are detections; streams finished are own finishes and streams given up on |
| Conservation.StepOfStream | backend-go/internal/state/registry.go:48-130 | what one event does to one stream's reports and finals, and that it leaves every other stream alone |
| Conservation.ReportsAreKept | backend-go/internal/state/registry.go:59-130 | at any moment a stream's interval reports are those given up and those held, in order, none lost or doubled |
| Conservation.FinalsAddUp | backend-go/internal/state/registry.go:121-182 | the reports given up are accounted for by made-up finals and by the stream's own finish |
| Conservation.CountersConserved | backend-go/internal/state/registry.go:133-182 | packet, DTX and audio counters of all reports equal those of made-up finals, of reports discarded by a finish, and of reports still held |
| Conservation.OnlyFinishDiscards | backend-go/internal/state/registry.go:73-80 | nothing is discarded without a finish of that stream |
| Conservation.DiscardedIsFinished | backend-go/internal/state/registry.go:73-80 | what is discarded is exactly what the registry held for the stream whenever it finished |
| Pipeline.Ingest.Dispatch | backend-go/internal/ingest/pipeline.go:42-106 | one bus event moves registry and writer as their specifications say; made-up finals are written one by one |
| Pipeline.Ingest.OnStatistics | backend-go/internal/ingest/pipeline.go:88-104 | a fallen uptime drains the registry into the writer |
| Pipeline.Ingest.Tick | backend-go/internal/worker/cleanup.go:127-147 | not before it is due, the sweeper evicts the stale streams and stores their finals |
| Pipeline.RowsCounted | backend-go/internal/ingest/pipeline.go:42-106 | without faults, filter or limit there is one statistics row per full report and per made-up final |
| Pipeline.StoreRuns | backend-go/internal/ingest/pipeline.go:42-106 | what the pipeline does to the tables is a run of the writer's operations, made-up finals of drains and sweeps among them |
| Pipeline.PipelineKeepsConsistent | backend-go/internal/ingest/pipeline.go:42-106 | so maps and tables stay consistent over every run of the pipeline, whatever fails |
| Pipeline.PipelineRetains | backend-go/internal/ingest/pipeline.go:42-106 | with a store filter every statistics row a run of the pipeline adds, made up or not, has matching peers |
| Pipeline.RegistryRuns | backend-go/internal/ingest/pipeline.go:42-106 | what the pipeline does to the registry is a run of the registry, and its made-up finals are that run's |
| Pipeline.ReplacedIsDiscarded | backend-go/internal/ingest/pipeline.go:42-106 | what the pipeline's full reports replace is what a finish discards from the registry |
| Pipeline.SweepsAndDrains | backend-go/internal/ingest/pipeline.go:88-104 | told from the events alone: statistics drain the registry if and only if the uptime fell since the statistics before, and an idle tick sweeps if and only if the last sweep is an interval ago |
| Pipeline.PipelineConserves | backend-go/internal/ingest/pipeline.go:42-106 | over every event sequence, whatever fails in the database, a stream's interval counters equal those of its made-up finals, of the reports the registry held whenever a full report of it came, and of the reports still held |
| TrackSync.SetEqualExact | backend-go/internal/worker/worker.go:195-209 | the one-sided comparison judges every current list correctly if and only if the desired list has no duplicates |
| TrackSync.NoRestartLost | backend-go/internal/worker/worker.go:111-161 | in every interleaving a set flag has a buffered kick, a call about to kick, or a worker about to swap it; at rest it is clear |
| TrackSync.RestMeansSynced | backend-go/internal/worker/worker.go:111-193 | at rest after a noticed restart, undisturbed since and not given up, vq-core holds the persisted set |
| TrackSync.ConvergesExactly | backend-go/internal/worker/worker.go:111-209 | that holds in all runs if and only if the persisted list repeats nothing |
| TrackSync.RepeatsMislead | backend-go/internal/worker/worker.go:167-209 | a concrete run that rests on a wrong list for any persisted list with a repetition |
| TrackSync.NoFalseAlarm | backend-go/internal/worker/worker.go:149-161 | a heartbeat is taken for a restart only if vq-core restarted since the one before |
| TrackSync.TriesBounded | backend-go/internal/worker/worker.go:111-136 | a pass after a restart tries at most retryFor/retryEvery + 2 times |
| TrackSync.ComesToRest | backend-go/internal/worker/worker.go:88-193 | left alone the reconciler is never stuck and rests within a bounded number of its own steps |
| TrackSync.PassIsARun | backend-go/internal/worker/worker.go:167-193 | an undisturbed pass is a run of the protocol, with the state it leaves and whether it counts as done |
| TrackSync.AcceptedPassRestores | backend-go/internal/worker/worker.go:167-193 | a pass that an obliging vq-core answered leaves it with the persisted set, whatever it held |
| SyncWorker.EqualSets | backend-go/internal/worker/worker.go:195-209 | the loop over a set computes the comparison |
| SyncWorker.TrackSyncWorker.NoteUptime | backend-go/internal/worker/worker.go:149-161 | the flag and the kick are set if and only if the uptime fell, and stay set |
| SyncWorker.TrackSyncWorker.SyncOnce | backend-go/internal/worker/worker.go:167-193 | false exactly when vq-core could not be reached, and the list vq-core is left with |
| SyncWorker.TrackSyncWorker.SyncAfterKick | backend-go/internal/worker/worker.go:111-136 | after a restart it tries until one try succeeds or ends past the deadline, otherwise once; the flag is consumed |
| SyncWorker.NoteIsARun | backend-go/internal/worker/worker.go:149-161 | run undisturbed the method is a run of the protocol that leaves no call half done |
| SyncWorker.SyncIsARun | backend-go/internal/worker/worker.go:111-193 | a kicked pass, with all its retries and sleeps, is a run of the protocol in which only the worker and the clock move; it takes the flag and leaves the list its contract gives |
| SyncWorker.RecoveryRestores | backend-go/internal/worker/worker.go:111-136 | the first answered try restores the persisted set, whatever earlier tries did |
| SortOrder.StrictWeakOrder | backend-go/internal/stats/active_list.go:137-167 | in both directions the key order is irreflexive, transitive, and its ties are transitive |
| SortOrder.AscendingMeans | backend-go/internal/stats/active_list.go:137-167 | ascending order puts missing values first, then numbers by size, then texts by their first difference |
| SortOrder.DescendingMeans | backend-go/internal/stats/active_list.go:120-125 | descending order turns that around |
| SortOrder.SortColumns | backend-go/internal/stats/active_list.go:16-32 | the fields a list can be sorted by; any other sorts by start time |
| SortOrder.StableSortSorts | backend-go/internal/stats/active_list.go:104-129 | the result is a permutation, in order, with ties in their given order |
| SortOrder.StableSortUnique | backend-go/internal/stats/active_list.go:120-125 | a list is the stable sort if and only if it is in order and keeps every class of ties: there is no other |
| ActiveList.SortRecords | backend-go/internal/stats/active_list.go:104-129 | sorting in place by keys computed once gives the stable sort of the old contents |
| ActiveList.StagesCompose | backend-go/internal/stats/active_list.go:42-77 | filtering stage after stage is filtering by all of them |
| ActiveList.FilterCommutesWithSort | backend-go/internal/stats/active_list.go:39-77 | filtering what was sorted is sorting what was filtered |
| ActiveList.SelectedMeans | backend-go/internal/stats/active_list.go:35-80 | what a request selects is the stable sort of the records that pass, and as many |
| ActiveList.SelectedExactly | backend-go/internal/stats/active_list.go:35-80 | a record is selected if and only if it is given, started within the window, is of the call, and its filter parses and keeps it |
| ActiveList.NumberOfColumn | backend-go/internal/stats/active_list.go:169-189 | what number a value counts as in the window |
| ActiveList.PageExact | backend-go/internal/stats/active_list.go:82-101 | for every int64 offset and count a page is a slice of the list, from the start for negative offsets and empty for counts below one, and fails if and only if its end does not fit 64 bits while its start lies inside |
| ActiveList.PagesTile | backend-go/internal/stats/active_list.go:82-101 | consecutive pages of one size join to a stretch of the list without gap or overlap |
| ActiveList.PagesShowEverything | backend-go/internal/stats/active_list.go:35-101 | enough pages join to everything selected |
| ActiveList.PaginateActive | backend-go/internal/stats/active_list.go:35-101 | total is the number of records that pass, the page is that page of the selection, and the input array is unchanged |
| FirstSeen.DistinctExact | backend-go/internal/pvqa/report.go:199-222 | first-seen order is characterised: the same names, in the order of their first occurrences, and no other list |
| PvqaDecomposition.DecomposeWith | backend-go/internal/pvqa/report.go:199-240 | the slot-indexed loops count, for each detector in first-seen order, the triggering cells of that name in all reports, and the intervals |
| PvqaDecomposition.CountRow | backend-go/internal/pvqa/report.go:228-235 | one row raises each counter by the triggers under its name, for rows of any length |
| PvqaDecomposition.CountIsTotal | backend-go/internal/pvqa/report.go:195-240 | any result that counts by name gives each name, listed or not, the number of its triggering cells |
| PvqaDecomposition.TriggersExactly | backend-go/internal/pvqa/report.go:184-193 | which cells are triggers: marked ones, values above a known threshold, and without one values above 0.001 in poor intervals; never those of detectors that are not flagged |
| PvqaDecomposition.OneInterval | backend-go/internal/pvqa/report.go:199-240 | one report of one interval counts its own triggers and one interval |
| PvqaDecomposition.ColumnOrderIsIrrelevant | backend-go/internal/pvqa/report.go:195-240 | permuting the columns of any of the reports changes no count |
| PvqaDecomposition.DecompositionsAdd | backend-go/internal/pvqa/report.go:199-240 | decomposing reports together adds up pointwise, and earlier detectors come first |
| PvqaDecomposition.RfactorInRange | backend-go/internal/pvqa/report.go:93-102 | under any order-keeping rounding the R-factor lies in 0..100, is 100 without poor intervals, and does not rise with them |
| PvqaDecomposition.RfactorIs | backend-go/internal/pvqa/report.go:93-102 | without rounding it is the whole percentage of intervals that are not poor |
| CsvExport.RenderCsv | backend-go/internal/api/csv.go:88-121 | the loops give a header and one row per stream, each count in its name's column |
| CsvExport.RowsAreRectangular | backend-go/internal/api/csv.go:106-119 | with basic cells for the basic columns all rows are as long as the header |
| CsvExport.HeadersDistinct | backend-go/internal/api/csv.go:89-100 | the detector headers are the union of all names in first-seen order |
| CsvExport.ExportShowsTotals | backend-go/internal/api/csv.go:125-169 | the cell of a stream under a detector's header is the number of that detector's triggers in the stream's reports, or empty |

## Left out

- Sockets, protobuf decoding, HTTP handlers, templates, shell commands, webhooks, logging, YAML: plumbing.
- SQLite itself: indexes, locking, busy retries, the WAL. Queries are methods that find the rows the query defines; a commit either happens or leaves the tables as they were.
- The numeric SQL dialect and its renumbering: every caller uses question marks.
- Floating point in full: NaN, infinities, float formatting and float parsing are parameters or left out; reals stand for floats.
- FilterMeaning.CompilingPreservesMeaning: restricted to portable filters (small integers, no string as a condition, no comparison of a string with a number), because the two back ends differ there by the design of their languages; a value that is missing is an evaluation error, and records hold no nil values.
- FilterMeaning.KeepsIffSelects: SQLite's column affinities are not modelled, so a comparison of `ssrc` with a text is outside it.
- LiveRecords.FieldsThatAgree: for counters that float64 holds exactly and timestamps whose difference fits 64 bits.
- FilterSqlReading.KeepsIffTextSelects: assumes that column names are qualified names, which those of the name map are, and that floats are printed so that SQL reads them back.
- Counters are unbounded: the wrap-around of 64-bit sums in the drop history and in made-up finals is not modelled.
- Writer.DbWriter.OpenStreamAt: finding or adding the agent row is folded into the outcome of opening, and an error after a successful insert is not modelled because the driver never returns one.
- The SIP call, call-health and alarm-event tables are modelled only as far as the sweep deletes from them; storing into them is a plain insert.
- Cleanup.RemoveOldRecords: runs as one step; what the writer does between query and deletes is in Cleanup.GapLosesExactly, what it does between two chunks is not modelled, nor are the timing statistics.
- TrackSync.RestMeansSynced: stopping the worker is not modelled, the persisted list does not change during a run, and a replace leaves vq-core with a list of the same set.
- AlarmEngine.Engine.Tick: delivery to notifiers and the time a measurement takes are left out.
- ActiveList.SortRecords: the library's stable sort is an insertion sort here; by SortOrder.StableSortUnique every stable sort gives the same list.
- PvqaDecomposition.DecomposeWith: starts from parsed reports; splitting the report text into header and cells is not part of this model, nor are SilentShare and SilentStream.
- CsvExport.RenderCsv: ends at the rows handed to the CSV writer; quoting and the formatting of basic cells are the library's.
- FilterTransport.SearchFilter.Parse: splitting, base64 and UTF-8 checks of the Go library are functions written out after their documented behaviour.
- Page-link builders, WAV concatenation, track restore on start, audio retention and DSN parsing: they would only add easy members.
