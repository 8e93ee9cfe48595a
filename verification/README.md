# Verification of a messaging server's core and of an event hub

This project models parts of the NATS server kept under
`almoxarifado/messaging/nats-server` and the event bus of the hub in
`oficina/ads-ai-hub/app/main.py`, and proves what they promise. `dafny verify
dfyconfig.toml` checks all of it.

## What is modelled

- **Cron** (`Calendar.dfy`, `CronSearch.dfy`, `CronPattern.dfy`, `CronMeaning.dfy`):
  pattern text and what it means, and the search for the next matching second over a
  full Gregorian calendar in UTC.
- **Configuration** (`ConfLexer.dfy`, `ConfParser.dfy`, `ConfErasure.dfy`,
  `ConfRebuild.dfy`, `ConfText.dfy`, `ConfScalars.dfy`, `ConfVariables.dfy`,
  `ConfIncludes.dfy`, `ConfBrackets.dfy`, `ConfDangling.dfy`, `ConfReader.dfy`): the
  lexer as a stack of state functions, the parser as a stack machine over its items,
  both parsing modes, and the parser object. Texts are rendered and read back, with
  variables and included files.
- **JWT store** (`ExpiryHeap.dfy`, `ExpirationTracking.dfy`, `JwtStore.dfy`,
  `DirJwtStore.dfy`, `JwtSync.dfy`): heap, index, list and digest over a directory
  of files, all interleavings of its operations with the sections of a reload, and
  the exchange of packs between replicas, whose comparisons and writes interleave.
- **Queue** (`IpQueue.dfy`): the queue object, and all interleavings of its
  critical sections and channel operations.
- **Accounts** (`WeightedMapping.dfy`, `ImportCycles.dfy`, `ServiceResponses.dfy`):
  weighted mappings, the search for import cycles, and the response tables of two
  accounts under all interleavings of their critical sections.
- **Permission templates** (`TemplateExpansion.dfy`, `TemplateText.dfy`): the texts of
  templates, the odometer that expands them and its cap.
- **PROXY protocol** (`ProxyProtocol.dfy`): sections 2.1 and 2.2 of the HAProxy
  PROXY protocol specification, read from a connection that delivers chunks.
- **Event bus** (`EventBus.dfy`): publishing, bounded queues, snapshot and stream.
- `Basics.dfy`, `Ascii.dfy` and `Splitting.dfy` are shared by these.

Clocks, random draws, the walk order of directories and maps, failing file
operations, JWT decoding and hashing, environment variables, subject matching and
text libraries are parameters. Every theorem holds for all their values.

## Where the code differs from what one would expect

Each of these is proved, with the exact condition where there is one.

- `updateTrack` adds the time to live without the case for the largest value that
  `track` has, so with expiration disabled a key that is loaded counts as expired
  at once. A renewal outlives its moment exactly when the sum fits 64 bits
  (`RenewalOutlivesNow`, `LoadExpiresTheUnexpiring`). The comment at
  `dirstore.go:146-147` says otherwise.
- A reload does not hold the lock between clearing the tracker, reading a file and
  tracking it. A file rewritten or deleted in between is tracked as it was
  (`RewrittenWhileHeld`, `DeletedWhileHeld`); tracker and directory agree throughout
  exactly when no such step happens (`AgreementIsExact`).
- The limit can be passed in two ways: files that are not tracked yet do not count
  (`AddedWhileCleared`), and a key that is tracked without its file is written without
  a test (`RewrittenAfterDelete`). These are all the ways there are (`LimitIsExact`).
- A key that is tracked without its file can block a full store for new keys
  (`MissingFileBlocksAdds`) and the expiry of all keys that expire after it
  (`Store.Expire`, `StuckFirst`).
- A reload forgets the order of use, unless it happens to walk the files in that order
  (`ReloadKeepsOrder`, `UseOrderIsExact`).
- `saveIfNewer` compares without the lock, so a JWT can be replaced by an older one,
  exactly when a newer write of the key came between a comparison and its write
  (`IssueTimesNeverFall`, `LateWriteLowers`).
- Two replicas that exchange packs taken at the same time can swap JWTs of equal
  issue time instead of agreeing (`CrossExchangeConverges`).
- The size limit of a queue can be passed when the 64-bit sum wraps around
  (`SizeLimitHolds`, `SizeLimitWraps`).
- The import check refuses exactly the graphs in which a chain of imports comes to an
  account that a chain walked before it left by an import, or in which chains leave too
  many accounts. Graphs without a cycle are among them (`CycleReportIsExact`,
  `DiamondIsRefused`).
- A reverse entry added after its response was removed is never taken back by that
  removal (`FinishAddKeeps`, `LateEntryDangles`).
- In `"outer":{"key"}` the map is bound to `key` (`ClosedMapTakesLastKey`,
  `DanglingTextIsParsed`).
- `]` right after an unsigned integer does not close the array. After signed numbers,
  fractions, strings, booleans, lists and maps it does; after a number with a suffix it
  does too, but the number is then text (`BracketCloses`, `OnlyDigitsJoin`).
- A size with an ending that the lexer lets through and the parser does not list, as in
  `1kbb`, sets nothing and is no error (`OtherSizeSetsNothing`).
- A key without a value at the end of a text is an error, but not the quoted key `"}"`
  (`KeyAtTheEnd`).
- `*-anything` is accepted in a cron field (`StarIgnoresItsRange`).
- Templates without tags are not capped (`UntaggedIsUncapped`).
- `TAG(x)` is taken for a tag operation but keeps its name in front of the prefix, so it
  finds no tag that `tag(x)` finds (`TagKeepsItsCase`).
- A template that is repeated in a subject is filled by its first token alone; its other
  values give the same subjects again (`RepeatedTemplateRepeats`).
- A heartbeat can carry a larger number than the event sent after it, exactly when an
  event is queued behind it, and so can a snapshot (`FramesIncreaseExactly`,
  `SnapshotOrders`).

## Model

| member | source | states |
|---|---|---|
| `Ascii.NumeralReads` | almoxarifado/messaging/nats-server/server/cron.go:247-256 | the value of the digits of a numeral is the number, for every number |
| `Ascii.ParsesNumeral` | almoxarifado/messaging/nats-server/server/cron.go:247-256 | the 64-bit integer parser reads the numeral of every number that fits back as that number |
| `Splitting.SplitJoin` | almoxarifado/messaging/nats-server/server/cron.go:170-180 | splitting undoes joining whenever no part holds a separator |
| `Calendar.YearOfDayIsExact` | almoxarifado/messaging/nats-server/server/cron.go:89-103 | a day number lies in year y exactly when it is between the first days of y and y + 1 of the Gregorian calendar |
| `Calendar.CivilRoundTrip` | almoxarifado/messaging/nats-server/server/cron.go:104-122 | year, month and day of the day number of a date are that date, leap years included |
| `Calendar.DayRoundTrip` | almoxarifado/messaging/nats-server/server/cron.go:104-122 | the day number of the year, month and day of a day number is that day number, and the day is one of that month |
| `Calendar.EpochIsThursday` | almoxarifado/messaging/nats-server/server/cron.go:89-122 | the first day of the epoch is Thursday, the first of January 1970 |
| `Calendar.MonthLengths` | almoxarifado/messaging/nats-server/server/cron.go:104-122 | a month has 30 days exactly when it is April, June, September or November, February 28 or 29 by the leap rule, and every other month 31 |
| `Calendar.DayAfter` | almoxarifado/messaging/nats-server/server/cron.go:113-121 | a day later the weekday is the next one, round the week, and the date the next day, the first of the next month or the first of January, for every day of the calendar |
| `Calendar.ClockReads` | almoxarifado/messaging/nats-server/server/cron.go:122-148 | hour, minute and second are what has passed since midnight of the same day |
| `CronSearch.MonthStep` | almoxarifado/messaging/nats-server/server/cron.go:104-112 | one turn of the month loop skips no matching second and leaves a time that mismatches only with all finer fields at their minimum |
| `CronSearch.DayStep` | almoxarifado/messaging/nats-server/server/cron.go:113-121 | the same for one turn of the day loop, under the star rule of the two day fields |
| `CronSearch.HourStep` | almoxarifado/messaging/nats-server/server/cron.go:122-130 | the same for one turn of the hour loop |
| `CronSearch.MinuteStep` | almoxarifado/messaging/nats-server/server/cron.go:131-139 | the same for one turn of the minute loop |
| `CronSearch.SecondStep` | almoxarifado/messaging/nats-server/server/cron.go:140-148 | the same for one turn of the second loop |
| `CronSearch.NextFire` | almoxarifado/messaging/nats-server/server/cron.go:89-149 | for every schedule and timestamp the search ends with the least whole second strictly after the timestamp, given in nanoseconds, that matches all fields; the range error exactly when no second up to the end of the start year plus five matches. `MatchesWhatIsWritten` says what matching means |
| `CronPattern.GetBits` | almoxarifado/messaging/nats-server/server/cron.go:259-272 | both branches give exactly the values from start to end on a step |
| `CronPattern.StepsReach` | almoxarifado/messaging/nats-server/server/cron.go:268-270 | every start + k * step up to the end is among the bits |
| `CronPattern.StepsOnly` | almoxarifado/messaging/nats-server/server/cron.go:268-270 | every bit is start + k * step for some k and not beyond the end |
| `CronPattern.GetRange` | almoxarifado/messaging/nats-server/server/cron.go:170-234 | the branches on star, hyphens, slashes and bounds compute the range function, refusals included |
| `CronPattern.GetField` | almoxarifado/messaging/nats-server/server/cron.go:155-166 | the loop over comma-separated ranges computes the union, or the first refusal |
| `CronPattern.TermRoundTrip` | almoxarifado/messaging/nats-server/server/cron.go:170-234 | the text of a range expression, with numbers or names and either star, is accepted exactly when its names are known and it is within bounds with a positive step, and then denotes exactly the values it admits, with the star only for a whole range in steps of one |
| `CronPattern.FieldRoundTrip` | almoxarifado/messaging/nats-server/server/cron.go:155-166 | the text of a field is accepted exactly when all its terms are legal, and denotes exactly what one of them admits |
| `CronPattern.PatternRoundTrip` | almoxarifado/messaging/nats-server/server/cron.go:49-83 | the text of six fields is accepted exactly when every term is legal in its field, and each field of the schedule holds exactly what its terms admit |
| `CronPattern.StarIgnoresItsRange` | almoxarifado/messaging/nats-server/server/cron.go:170-234 | in every field, a text that starts with a star is accepted exactly when the star is followed by nothing, a hyphen or a slash and what is behind the first slash, if any, is a positive number; it is then the whole range in such steps, whatever stands between hyphen and slash |
| `CronPattern.ParseCron` | almoxarifado/messaging/nats-server/server/cron.go:49-149 | a pattern text is refused exactly when it does not parse; otherwise the result is the least matching second after the timestamp, or the range error exactly when there is none in range |
| `CronMeaning.BoundsAreTight` | almoxarifado/messaging/nats-server/server/cron.go:281-310 | a number is within the bounds of a field exactly when the clock or calendar reads it at some second |
| `CronMeaning.NamesCount` | almoxarifado/messaging/nats-server/server/cron.go:237-245 | January to December count from 1 and Sunday to Saturday from 0, in any case, each in its own field, and there are no other names |
| `CronMeaning.MatchesWhatIsWritten` | almoxarifado/messaging/nats-server/server/cron.go:49-149 | the schedule of a pattern text matches a second exactly when second, minute, hour and month are what its terms admit, and the day is so by day of month or by weekday, and by both when either field has a star |
| `CronMeaning.PatternIgnoresGaps` | almoxarifado/messaging/nats-server/server/cron.go:49-56 | blanks and tabs before, between and after the six fields do not change what the pattern means |
| `CronMeaning.FieldIgnoresCommas` | almoxarifado/messaging/nats-server/server/cron.go:155-166 | extra commas in a field do not change what it means |
| `ConfLexer.Step` | almoxarifado/messaging/nats-server/conf/lex.go:257-1247 | every state function, from every well-formed lexer, keeps the stack of states well formed, makes progress, sends at most one item, and sends only items that fit the open containers and awaited keys; it stops exactly on the end-of-file or an error item |
| `ConfLexer.Run` | almoxarifado/messaging/nats-server/conf/lex.go:120-131 | the lexer stops on every text; the end-of-file or error item comes last and only there, and no item reports an empty state stack |
| `ConfLexer.Lex` | almoxarifado/messaging/nats-server/conf/lex.go:131-155 | the same from the start of any text |
| `ConfLexer.RunIsNested` | almoxarifado/messaging/nats-server/conf/lex.go:143-155 | items sent from any well-formed lexer close only the innermost container, by its own kind, and give a map a value only when a key is on hand |
| `ConfLexer.LexIsNested` | almoxarifado/messaging/nats-server/conf/lex.go:147-155 | for every text the items are nested in this sense, starting from the top-level map |
| `ConfParser.SetValueIsSafe` | almoxarifado/messaging/nats-server/conf/parse.go:486-514 | with the shape of the lexer and a key on hand, setting a value cannot pop an empty key stack and keeps the shape |
| `ConfParser.CloseContextIsSafe` | almoxarifado/messaging/nats-server/conf/parse.go:293-297 | closing a container of the innermost kind cannot pop the last context and keeps the shape |
| `ConfParser.SetIncludedIsSafe` | almoxarifado/messaging/nats-server/conf/parse.go:408-431 | the keys and values of an include are set without a panic |
| `ConfParser.ValueItemIsSafe` | almoxarifado/messaging/nats-server/conf/parse.go:298-407 | every scalar and variable item is processed without a panic |
| `ConfParser.ProcessVariableIsSafe` | almoxarifado/messaging/nats-server/conf/parse.go:448-484 | a variable is looked up and stored without a panic, through the environment too |
| `ConfParser.ProcessItemsIsSafe` | almoxarifado/messaging/nats-server/conf/parse.go:202-222 | nested items are processed without a panic |
| `ConfParser.ParseTextIsSafe` | almoxarifado/messaging/nats-server/conf/parse.go:233-270 | for every text, environment and mode, none of the parser's panics can happen |
| `ConfParser.IncludesAreSafe` | almoxarifado/messaging/nats-server/conf/parse.go:408-431 | nor can any happen in an included file, at any depth of includes |
| `ConfErasure.SetValueAgrees` | almoxarifado/messaging/nats-server/conf/parse.go:486-514 | setting a token and setting its plain value keep the two modes' stacks equal up to erasure |
| `ConfErasure.MarkUsedErases` | almoxarifado/messaging/nats-server/conf/parse.go:396-400 | marking the token of a variable as used changes no value of any open container |
| `ConfErasure.SetVariableAgrees` | almoxarifado/messaging/nats-server/conf/parse.go:383-407 | the same for storing a variable, which marks the token it came from |
| `ConfErasure.ProcessItemAgrees` | almoxarifado/messaging/nats-server/conf/parse.go:272-407 | one item fails in both modes or takes both to states equal up to erasure |
| `ConfErasure.ProcessItemsAgrees` | almoxarifado/messaging/nats-server/conf/parse.go:202-222 | the same for every item sequence |
| `ConfErasure.PedanticMeansPlain` | almoxarifado/messaging/nats-server/conf/parse.go:71-86 | for every text, pedantic parsing succeeds exactly when plain parsing does, and erasing its tokens gives the plain result |
| `ConfRebuild.Rebuilds` | almoxarifado/messaging/nats-server/conf/parse.go:284-300 | processing the items of any nested value is setting that value: it is rebuilt exactly, and the stacks below stay as they were |
| `ConfRebuild.RebuildsFields` | almoxarifado/messaging/nats-server/conf/parse.go:228-256 | processing the items of fields puts them into the open map in order, a later one of the same key winning |
| `ConfRebuild.NumeralSets` | almoxarifado/messaging/nats-server/conf/parse.go:301-348 | an integer item of the numeral of any 64-bit integer sets that integer |
| `ConfRebuild.SuffixCounts` | almoxarifado/messaging/nats-server/conf/parse.go:319-348 | each letter k, m, g, t, p, e counts in its power of 1000 alone and of 1024 with b, i or ib, in any case |
| `ConfRebuild.SizeSets` | almoxarifado/messaging/nats-server/conf/parse.go:301-348 | an integer item with such a suffix sets its number times what the suffix counts in, wrapped to 64 bits |
| `ConfRebuild.OtherSizeSetsNothing` | almoxarifado/messaging/nats-server/conf/parse.go:319-348 | with any other ending of those letters that the lexer lets through, no value is set and no error raised: the key is left without a value |
| `ConfRebuild.BoolSets` | almoxarifado/messaging/nats-server/conf/parse.go:359-367 | true, yes and on set true, and false, no and off set false, in any case |
| `ConfRebuild.ProcessNote` | almoxarifado/messaging/nats-server/conf/parse.go:272-283 | comments change nothing |
| `ConfRebuild.ClosedMapTakesLastKey` | almoxarifado/messaging/nats-server/conf/parse.go:293-297 | a closed map is bound to the key on top of the key stack; that is its own key exactly when the last key left without a value inside it, if any, is the same |
| `ConfRebuild.DanglingKeyTakesTheMap` | almoxarifado/messaging/nats-server/conf/parse.go:284-297 | the items of a map that ends in a key without a value bind the map to that key and leave its own on the key stack |
| `ConfDangling.DanglingTextIsParsed` | almoxarifado/messaging/nats-server/conf/lex.go:783-849 | parsing the text of a document whose last map ends in a key without a value gives the document with that map under the inner key; its own key holds it exactly when the two are the same or it held the same before |
| `ConfDangling.KeyAtTheEnd` | almoxarifado/messaging/nats-server/conf/parse.go:202-222 | a text that ends in a key without a value is an error, whatever comes before, exactly unless the key reads as a closing brace; then it is passed over |
| `ConfText.ReadValue` | almoxarifado/messaging/nats-server/conf/lex.go:623-664 | the lexer reads the text of any nested value as exactly the items of that value and returns to where the value belongs |
| `ConfText.ReadNumber` | almoxarifado/messaging/nats-server/conf/lex.go:1065-1103 | the lexer reads the numeral of any integer, followed by what ends it, as one integer item: a comma, semicolon, line end, brace or the end of the text ends every numeral, a bracket a negative one |
| `ConfText.StringRunes` | almoxarifado/messaging/nats-server/conf/lex.go:928-1059 | the lexer reads an escaped string as that string, for all runes, NUL included |
| `ConfText.ReadSized` | almoxarifado/messaging/nats-server/conf/lex.go:1106-1122 | the lexer reads a number with a size suffix as one integer item |
| `ConfText.ReadRaw` | almoxarifado/messaging/nats-server/conf/lex.go:951-983 | the lexer reads an unquoted text as a boolean when it is one of the six words in any case, as a variable when it starts with a dollar, and as a string otherwise |
| `ConfText.ReadKey` | almoxarifado/messaging/nats-server/conf/lex.go:422-484 | the lexer reads a key in double quotes, single quotes or none, at the top and in a map, followed by a colon, an equals sign or a space, as that key |
| `ConfText.ReadNote` | almoxarifado/messaging/nats-server/conf/lex.go:1222-1240 | the lexer reads a comment line of either kind as its mark and its text |
| `ConfText.ReadDocument` | almoxarifado/messaging/nats-server/conf/lex.go:257-318 | the lexer reads the text of a document as the items of its fields |
| `ConfText.DocumentRoundTrip` | almoxarifado/messaging/nats-server/conf/parse.go:71-77 | parsing the text of any document of strings in the three quoting styles, 64-bit integers, sizes, boolean words, lists and maps gives back exactly that document, in every environment and with any mix of key styles, separators, ends of fields and comment lines |
| `ConfText.OpenDocumentRoundTrip` | almoxarifado/messaging/nats-server/conf/lex.go:296-318 | the same when the text stops right after its last value |
| `ConfVariables.VariableSets` | almoxarifado/messaging/nats-server/conf/parse.go:383-484 | a variable sets what it stands for: a bcrypt hash itself, otherwise what the innermost open map that defines it says, otherwise what its environment variable says when read as a value |
| `ConfVariables.EnvironmentReads` | almoxarifado/messaging/nats-server/conf/parse.go:463-483 | an environment variable that holds the text of a value gives that value, unless it is being read already |
| `ConfVariables.UndefinedFails` | almoxarifado/messaging/nats-server/conf/parse.go:463-483 | a variable that nothing defines is an error, and so is one that refers back to itself through the environment |
| `ConfVariables.VariableIsParsed` | almoxarifado/messaging/nats-server/conf/parse.go:448-484 | parsing a text whose last map ends in a variable gives that key what the variable stands for: from the map itself before the document around it, and from there before the environment |
| `ConfScalars.SpelledTextIsParsed` | almoxarifado/messaging/nats-server/conf/lex.go:1021-1060 | parsing a double-quoted string gives its runes however each is spelled: plainly, by the five letter escapes, or by two hexadecimal digits in either case |
| `ConfScalars.DecimalIsParsed` | almoxarifado/messaging/nats-server/conf/lex.go:1182-1207 | parsing a number with one point gives that decimal when the library can read it, and an error otherwise |
| `ConfScalars.AddressIsParsed` | almoxarifado/messaging/nats-server/conf/lex.go:1193-1220 | parsing a number with a second point gives a string of it and all digits, points, colons and hyphens that follow |
| `ConfScalars.DateIsParsed` | almoxarifado/messaging/nats-server/conf/lex.go:1079-1148 | parsing four digits, a hyphen and a month, day and time in Zulu form gives that date when the library can read it, and an error otherwise |
| `ConfIncludes.ReadInclude` | almoxarifado/messaging/nats-server/conf/lex.go:475-584 | the lexer reads the keyword in any case, a space and a path in any quoting style as an include of that path |
| `ConfIncludes.IncludedSets` | almoxarifado/messaging/nats-server/conf/parse.go:420-431 | pairs that agree with a table set in the open map what the table holds under their keys and leave its other keys alone |
| `ConfIncludes.IncludeIsWritingInPlace` | almoxarifado/messaging/nats-server/conf/parse.go:408-431 | parsing a text with an include gives what parsing it with the fields of the included table written in its place would give, in whatever order the table is walked |
| `ConfIncludes.IncludedFileIsParsed` | almoxarifado/messaging/nats-server/conf/parse.go:408-431 | for a file that is itself the text of a document, this is the document of the fields before, in the file, and after, however deep includes may go |
| `ConfBrackets.BracketJoinsNumber` | almoxarifado/messaging/nats-server/conf/lex.go:1079-1103 | a closing bracket right after the digits of an unsigned number is read into an unquoted string and does not close the array |
| `ConfBrackets.OnlyDigitsJoin` | almoxarifado/messaging/nats-server/conf/lex.go:1079-1207 | of the states within a number, the one that reads unsigned digits takes a bracket in; a signed number is sent as an integer, a fraction as a float and a number with a suffix as text, each with the bracket left to close the array |
| `ConfBrackets.BracketCloses` | almoxarifado/messaging/nats-server/conf/lex.go:667-730 | an array written without a trailing comma is read as its elements exactly when its last element is neither an unsigned number nor a size, whatever follows |
| `ConfReader.Parser.NextItem` | almoxarifado/messaging/nats-server/conf/lex.go:120-130 | the next item of the run and the lexer after it |
| `ConfReader.Parser.PushContext` | almoxarifado/messaging/nats-server/conf/parse.go:228-231 | the context stack grows by one |
| `ConfReader.Parser.PopContext` | almoxarifado/messaging/nats-server/conf/parse.go:233-242 | the last context is removed; the precondition is what the source panics without |
| `ConfReader.Parser.PopKey` | almoxarifado/messaging/nats-server/conf/parse.go:248-256 | the last key is removed |
| `ConfReader.Parser.PopItemKey` | almoxarifado/messaging/nats-server/conf/parse.go:262-270 | the last item key is removed |
| `ConfReader.Parser.SetValue` | almoxarifado/messaging/nats-server/conf/parse.go:486-514 | the stacks change as the specification function says, in both modes |
| `ConfReader.Parser.FindScope` | almoxarifado/messaging/nats-server/conf/parse.go:448-461 | the innermost open map that defines the name, or none |
| `ConfReader.Parser.SetIncluded` | almoxarifado/messaging/nats-server/conf/parse.go:408-431 | every key and value of an include is pushed and set, in order |
| `ConfReader.Parser.LookupEnv` | almoxarifado/messaging/nats-server/conf/parse.go:463-483 | the value of an environment variable parsed on its own; a reference back to a variable being resolved is an error |
| `ConfReader.Parser.ProcessVariable` | almoxarifado/messaging/nats-server/conf/parse.go:383-407 | a variable is stored as the specification function says, or fails when it does |
| `ConfReader.Parser.ProcessInteger` | almoxarifado/messaging/nats-server/conf/parse.go:301-348 | the loop over leading digits and the switch on the suffix do what `NumeralSets`, `SizeSets` and `OtherSizeSetsNothing` say of the integer item |
| `ConfReader.Parser.CloseContext` | almoxarifado/messaging/nats-server/conf/parse.go:293-297 | a closed container becomes a value of the one around it |
| `ConfReader.Parser.ProcessItem` | almoxarifado/messaging/nats-server/conf/parse.go:272-435 | one item changes the stacks as the specification function says, or fails when it does |
| `ConfReader.Parser.Parse` | almoxarifado/messaging/nats-server/conf/parse.go:202-222 | the parser object returns exactly what the specification of the whole text says, and never reaches a panic |
| `ExpiryHeap.SinkStep` | almoxarifado/messaging/nats-server/server/dirstore.go:590-602 | moving an item below its smaller child keeps the rest of the heap in order |
| `ExpiryHeap.RiseStep` | almoxarifado/messaging/nats-server/server/dirstore.go:590-602 | moving an item above its parent keeps the rest of the heap in order |
| `ExpiryHeap.RootIsLeast` | almoxarifado/messaging/nats-server/server/dirstore.go:590-595 | in a heap in order the root expires first |
| `ExpirationTracking.XorLaws` | almoxarifado/messaging/nats-server/server/dirstore.go:552-556 | combining digests is commutative, associative and its own inverse |
| `ExpirationTracking.XorAssign` | almoxarifado/messaging/nats-server/server/dirstore.go:552-556 | the byte loop computes the combination |
| `ExpirationTracking.RecomputedAdd` | almoxarifado/messaging/nats-server/server/dirstore.go:669-672 | adding an entry changes the digest recomputed from scratch by that entry's hash |
| `ExpirationTracking.RecomputedReplace` | almoxarifado/messaging/nats-server/server/dirstore.go:663-672 | replacing an entry takes the old hash out and the new one in |
| `ExpirationTracking.RecomputedRemove` | almoxarifado/messaging/nats-server/server/dirstore.go:638-644 | removing an entry takes its hash out |
| `ExpirationTracking.ExpirationTracker.Swap` | almoxarifado/messaging/nats-server/server/dirstore.go:597-602 | two items change places, and their indices with them |
| `ExpirationTracking.ExpirationTracker.Up` | almoxarifado/messaging/nats-server/server/dirstore.go:604-610 | an item rises to its place: the heap is in order again and holds the same items |
| `ExpirationTracking.ExpirationTracker.Down` | almoxarifado/messaging/nats-server/server/dirstore.go:612-622 | an item sinks to its place, in the part of the heap given |
| `ExpirationTracking.ExpirationTracker.Fix` | almoxarifado/messaging/nats-server/server/dirstore.go:624-631 | a heap with one changed item is in order again |
| `ExpirationTracking.ExpirationTracker.Push` | almoxarifado/messaging/nats-server/server/dirstore.go:604-610 | an item is added at the end of heap, index and list |
| `ExpirationTracking.ExpirationTracker.Pop` | almoxarifado/messaging/nats-server/server/dirstore.go:612-622 | the last item leaves heap, index and list |
| `ExpirationTracking.ExpirationTracker.HeapPush` | almoxarifado/messaging/nats-server/server/dirstore.go:669-671 | a new item is added: the heap is in order and index, heap and list hold the same keys |
| `ExpirationTracking.ExpirationTracker.HeapRemove` | almoxarifado/messaging/nats-server/server/dirstore.go:638-643 | the item at an index leaves heap, index and list; the rest stays in order |
| `ExpirationTracking.ExpirationTracker.UpdateTrack` | almoxarifado/messaging/nats-server/server/dirstore.go:624-636 | a tracked key is renewed and moved to the end of the list under eviction; the digest stays; another key changes nothing |
| `ExpirationTracking.ExpirationTracker.UnTrack` | almoxarifado/messaging/nats-server/server/dirstore.go:638-644 | a key leaves all structures and the digest, and a missing key changes nothing |
| `ExpirationTracking.ExpirationTracker.ExpireTop` | almoxarifado/messaging/nats-server/server/dirstore.go:707-717 | the expiry path: after the pop, untracking is a no-op and the digest loses the hash once |
| `ExpirationTracking.ExpirationTracker.Track` | almoxarifado/messaging/nats-server/server/dirstore.go:646-673 | a key is added or replaced with its hash and the expiration that `TrackedExpiresByClaim` and `TrackedExpiresByTtl` speak of; heap, index, list and digest agree again |
| `JwtStore.WriteKeeps` | almoxarifado/messaging/nats-server/server/dirstore.go:415-450 | a write keeps everything tracked in agreement with its file on every path, and leaves no file untracked that was tracked |
| `JwtStore.TrackedExpiresByClaim` | almoxarifado/messaging/nats-server/server/dirstore.go:646-668 | without a time to live, a tracked JWT is expired exactly from the moment it claims, in seconds turned into nanoseconds of 64 bits, and never when it claims none or cannot be decoded |
| `JwtStore.TrackedExpiresByTtl` | almoxarifado/messaging/nats-server/server/dirstore.go:646-668 | with one, it is expired exactly from that long after it was tracked, whatever it claims, and never with the largest one |
| `JwtStore.WrittenExpires` | almoxarifado/messaging/nats-server/server/dirstore.go:415-450 | the same of every JWT that a write stores |
| `JwtStore.RenewedExpires` | almoxarifado/messaging/nats-server/server/dirstore.go:624-636 | a renewed key is expired exactly from its time to live later, when the sum fits 64 bits; without a time to live its expiration stays |
| `JwtStore.WriteReports` | almoxarifado/messaging/nats-server/server/dirstore.go:415-450 | a write that reports a change has stored just this JWT and its hash; it reports none exactly when the key is tracked with this hash, and has then changed no file; one that fails has left the file of its key alone |
| `JwtStore.StepKeeps` | almoxarifado/messaging/nats-server/server/dirstore.go:342-477 | a step of a load, write, delete, expiry pass or section of a reload keeps agreement, up to the files the reload is still to come to, exactly when a reload reads every file it must and tracks what the file still holds |
| `JwtStore.RunKeeps` | almoxarifado/messaging/nats-server/server/dirstore.go:342-477 | over every interleaving whose reloads are in time, tracker and directory agree whenever no reload is in flight |
| `JwtStore.AgreementIsExact` | almoxarifado/messaging/nats-server/server/dirstore.go:342-477 | every state of a run agrees in this sense exactly when all its reload sections are in time |
| `JwtStore.StepCount` | almoxarifado/messaging/nats-server/server/dirstore.go:415-450 | from every state, a step takes the number of files above the limit and what it was exactly when it writes a new file to a full directory, either under a key that is tracked with another hash or with fewer keys tracked than the limit |
| `JwtStore.LimitIsExact` | almoxarifado/messaging/nats-server/server/dirstore.go:342-450 | over every run, in time or not, no step does so exactly when no write is such |
| `JwtStore.RunStaysWithinLimit` | almoxarifado/messaging/nats-server/server/dirstore.go:342-450 | a run that starts within the limit stays within it exactly when no write is such |
| `JwtStore.OnlyReloadsAdd` | almoxarifado/messaging/nats-server/server/dirstore.go:342-450 | in runs whose reloads are in time, no write is such while no reload is in flight |
| `JwtStore.RewrittenWhileHeld` | almoxarifado/messaging/nats-server/server/dirstore.go:358-370 | a file rewritten between its read and its tracking is tracked with the hash of its old contents |
| `JwtStore.DeletedWhileHeld` | almoxarifado/messaging/nats-server/server/dirstore.go:358-370 | a file deleted between its read and its tracking is tracked without a file |
| `JwtStore.MissingFileBlocksAdds` | almoxarifado/messaging/nats-server/server/dirstore.go:415-473 | while such a key is the least recently used of a full store, however often new keys are written and that key is loaded or deleted, nothing changes |
| `JwtStore.RewrittenAfterDelete` | almoxarifado/messaging/nats-server/server/dirstore.go:423-444 | a full store whose file is deleted between read and tracking takes another key and then that file again, beyond the limit |
| `JwtStore.AddedWhileCleared` | almoxarifado/messaging/nats-server/server/dirstore.go:353-357 | a write to a full store whose tracker was cleared takes it above the limit |
| `JwtStore.UndisturbedReload` | almoxarifado/messaging/nats-server/server/dirstore.go:342-378 | a reload between whose sections nothing happens tracks every file, in the order of the walk |
| `JwtStore.DigestOfFiles` | almoxarifado/messaging/nats-server/server/dirstore.go:558-567 | the digest depends on the files alone, not on expirations or order |
| `JwtStore.SameFilesSameDigest` | almoxarifado/messaging/nats-server/server/dirstore.go:558-567 | stores that agree with equal directories have the same digest |
| `JwtStore.ReloadKeepsDigest` | almoxarifado/messaging/nats-server/server/dirstore.go:342-378 | a reload in time of a directory that ends up unchanged gives the same digest, whatever the walk order and whatever was loaded meanwhile |
| `JwtStore.StepByUse` | almoxarifado/messaging/nats-server/server/dirstore.go:342-450 | a step of a cache keeps the list in the order of last use exactly when a reload that tracks a key finds it used after all tracked so far |
| `JwtStore.UseOrderIsExact` | almoxarifado/messaging/nats-server/server/dirstore.go:342-450 | over every run, with reloads in time or not, the list is in the order of last use in all states exactly when every reload tracks keys in that order |
| `JwtStore.EvictsOldestUse` | almoxarifado/messaging/nats-server/server/dirstore.go:415-450 | over every such run, a key that a write evicts is one whose last use is oldest among the tracked keys; among all files when reloads were in time and none is in flight |
| `JwtStore.ReloadKeepsOrder` | almoxarifado/messaging/nats-server/server/dirstore.go:342-378 | an undisturbed reload leaves the list in the order of last use exactly when the walk takes the files in the order of the list |
| `JwtStore.RenewalOutlivesNow` | almoxarifado/messaging/nats-server/server/dirstore.go:624-636 | a tracked key that is renewed has not expired at that moment exactly when clock plus time to live fits 64 bits |
| `JwtStore.LoadExpiresTheUnexpiring` | almoxarifado/messaging/nats-server/server/dirstore.go:624-636 | with the largest time to live, a stored key does not expire until it is loaded, and counts as expired from then on |
| `DirJwtStore.Store.constructor` | almoxarifado/messaging/nats-server/server/dirstore.go:178-188 | opening a directory tracks every file, in the order of the walk |
| `DirJwtStore.Store.TrackAll` | almoxarifado/messaging/nats-server/server/dirstore.go:358-377 | every file of a walk is tracked with its hash and expiration |
| `DirJwtStore.Store.Reload` | almoxarifado/messaging/nats-server/server/dirstore.go:342-378 | undisturbed, the tracker is rebuilt from the directory for any walk order and agrees with it, whatever it held before; a digest that was right is unchanged |
| `DirJwtStore.Store.Load` | almoxarifado/messaging/nats-server/server/dirstore.go:398-413 | the file's contents, if key and file are there, and the key renewed; otherwise nothing changes |
| `DirJwtStore.Store.MakeRoom` | almoxarifado/messaging/nats-server/server/dirstore.go:434-443 | a full store evicts its least recently used file, or refuses when it may not or cannot |
| `DirJwtStore.Store.Write` | almoxarifado/messaging/nats-server/server/dirstore.go:415-450 | the new state and result are those of the specification on every path: unchanged contents, eviction, refusal at the limit, failing file operations; a store that agrees with its directory still does, within its limit |
| `DirJwtStore.Store.Delete` | almoxarifado/messaging/nats-server/server/dirstore.go:452-477 | file and entry are gone; a file that is missing or cannot be removed changes nothing; agreement is kept |
| `DirJwtStore.Store.ExpireFile` | almoxarifado/messaging/nats-server/server/dirstore.go:707-717 | the file that expires first and its entry are gone |
| `DirJwtStore.Store.Expire` | almoxarifado/messaging/nats-server/server/dirstore.go:704-718 | a pass removes only entries with expiration at or before now, the earliest first, and all of them exactly when every one of their files is there and can be removed |
| `DirJwtStore.Store.SameFilesSameHash` | almoxarifado/messaging/nats-server/server/dirstore.go:558-567 | two stores with equal directories that agree with them have the same digest, whatever each has been through |
| `DirJwtStore.StuckFirst` | almoxarifado/messaging/nats-server/server/dirstore.go:704-718 | while the key that expires first has no file that can be removed, a pass removes nothing |
| `JwtSync.Pack` | almoxarifado/messaging/nats-server/server/dirstore.go:226-265 | the lines of the chosen files, one by one in the order of the walk, joined; `ChosenIsExact` says which are chosen |
| `JwtSync.ChosenKeys` | almoxarifado/messaging/nats-server/server/dirstore.go:226-265 | what is packed is distinct and no more than the limit, for every walk and limit |
| `JwtSync.ChosenIsExact` | almoxarifado/messaging/nats-server/server/dirstore.go:226-265 | a pack holds exactly the eligible files of the first part of the walk, in its order: in a store that tracks, those tracked whose claimed expiration has not passed, and otherwise all; the part is the whole walk unless the pack is full |
| `JwtSync.AllEligibleAreChosen` | almoxarifado/messaging/nats-server/server/dirstore.go:226-265 | with room for them, a pack holds all eligible files and no others |
| `JwtSync.Merge` | almoxarifado/messaging/nats-server/server/dirstore.go:321-340 | lines are merged in order until one fails |
| `JwtSync.MergeOfPack` | almoxarifado/messaging/nats-server/server/dirstore.go:226-340 | merging a pack offers the receiver every file that was packed and no other, whatever the walk order and the limit |
| `JwtSync.MergeUndoesPack` | almoxarifado/messaging/nats-server/server/dirstore.go:226-340 | merging a pack into an empty store gives eligible files only, unchanged: all of them when there is room, as many as there is room for otherwise, and the whole directory exactly when every file is eligible and the limit is not exceeded |
| `JwtSync.LineIsRead` | almoxarifado/messaging/nats-server/server/dirstore.go:321-340 | a blank line is passed over, a key and a JWT with one separator are offered to the store, and a line with no separator or more than one is an error that changes nothing |
| `JwtSync.MergeStopsAtFailure` | almoxarifado/messaging/nats-server/server/dirstore.go:321-340 | lines are merged in order, and those after the first that fails are not |
| `JwtSync.ReplacesExactly` | almoxarifado/messaging/nats-server/server/dirstore.go:509-550 | an offered JWT is accepted exactly for a valid key, when there is none yet, or when it can be decoded and what is there cannot be or has another identity, is not newer, and both are for this key |
| `JwtSync.KeepsExactly` | almoxarifado/messaging/nats-server/server/dirstore.go:509-550 | it is kept out without an error exactly when what is there has the same identity or is newer |
| `JwtSync.WriteIsUpdate` | almoxarifado/messaging/nats-server/server/dirstore.go:509-550 | a store with room writes just the offered file, exactly unless it holds another JWT of the same hash |
| `JwtSync.CrossExchangeConverges` | almoxarifado/messaging/nats-server/server/dirstore.go:509-550 | an exchange of packs taken at the same time leaves both stores equal exactly when JWTs of different identity have different issue times |
| `JwtSync.ExchangeInTurnConverges` | almoxarifado/messaging/nats-server/server/dirstore.go:509-550 | an exchange in turn leaves both stores equal exactly when an identity names one JWT |
| `JwtSync.CrossExchangeMeets` | almoxarifado/messaging/nats-server/server/dirstore.go:509-567 | then both directories hold the newest JWT of each key, and the digests are equal |
| `JwtSync.ExchangeInTurnMeets` | almoxarifado/messaging/nats-server/server/dirstore.go:509-567 | the same after an exchange in turn, whatever the issue times |
| `JwtSync.OfferedIsNotOlder` | almoxarifado/messaging/nats-server/server/dirstore.go:509-550 | an offer never lowers the issue time held for a key |
| `JwtSync.UninterruptedSave` | almoxarifado/messaging/nats-server/server/dirstore.go:509-550 | a comparison followed by its write at once is the whole operation |
| `JwtSync.StepRises` | almoxarifado/messaging/nats-server/server/dirstore.go:540-542 | a step lowers an issue time exactly when it writes a JWT older than what is there by then |
| `JwtSync.IssueTimesNeverFall` | almoxarifado/messaging/nats-server/server/dirstore.go:509-550 | over every run of any number of replicas and calls, for any files and JWTs, no issue time ever falls exactly when no write comes after a newer write of its key that its own comparison did not see |
| `JwtSync.LateWriteLowers` | almoxarifado/messaging/nats-server/server/dirstore.go:509-550 | two JWTs that are both compared before either is written leave the older one when it is written last |
| `JwtSync.ReplicasConverge` | almoxarifado/messaging/nats-server/server/accounts.go:4499-4565 | in runs without such a write, replicas that started with or were sent the same JWTs hold the same files, the newest of each key |
| `IpQueue.Queue.Push` | almoxarifado/messaging/nats-server/server/ipqueue.go:113-147 | an accepted element is appended and the new length returned; length and size limits refuse it otherwise; an empty queue is signalled |
| `IpQueue.Queue.Pop` | almoxarifado/messaging/nats-server/server/ipqueue.go:152-174 | everything is taken in order and counted as in progress |
| `IpQueue.Queue.PopOne` | almoxarifado/messaging/nats-server/server/ipqueue.go:178-209 | the first element is taken; more left is signalled again |
| `IpQueue.Queue.Recycle` | almoxarifado/messaging/nats-server/server/ipqueue.go:215-231 | a popped slice is no longer in progress |
| `IpQueue.Queue.Drain` | almoxarifado/messaging/nats-server/server/ipqueue.go:253-268 | the queue and the signal are emptied |
| `IpQueue.RefusesExactly` | almoxarifado/messaging/nats-server/server/ipqueue.go:113-131 | a queue refuses an element for its length exactly when it holds as many as the limit, and for its size exactly when it does not and the elements with the new one measure more than the limit, as long as that fits 64 bits |
| `IpQueue.NextIsAwake` | almoxarifado/messaging/nats-server/server/ipqueue.go:113-208 | every step of every thread keeps a queue with something in it signalled, about to be signalled, or noticed by a consumer that has yet to pop |
| `IpQueue.NextIsSound` | almoxarifado/messaging/nats-server/server/ipqueue.go:113-208 | every step keeps the queue a first-in first-out sequence: what was pushed is what was taken followed by what is queued, and size and length add up |
| `IpQueue.RunIsAwakeAndSound` | almoxarifado/messaging/nats-server/server/ipqueue.go:113-268 | no wakeup is lost and the order is kept in every state of every interleaving of producers, consumers and drains |
| `IpQueue.RestingQueueIsSignalled` | almoxarifado/messaging/nats-server/server/ipqueue.go:113-208 | when all threads rest, a queue with something in it has its signal set |
| `IpQueue.SizeLimitHolds` | almoxarifado/messaging/nats-server/server/ipqueue.go:121-131 | an accepted element keeps the queue within its size limit exactly when the 64-bit sum does not wrap around |
| `IpQueue.RunStaysWithinSize` | almoxarifado/messaging/nats-server/server/ipqueue.go:121-131 | over every run that pushes only elements too small to wrap, the size limit holds |
| `IpQueue.SizeLimitWraps` | almoxarifado/messaging/nats-server/server/ipqueue.go:121-131 | an element near the largest size passes the limit |
| `WeightedMapping.Collect` | almoxarifado/messaging/nats-server/server/accounts.go:707-741 | a weight list is accepted exactly when subjects differ, weights and cluster totals are at most 100 and mappings are valid; 8-bit totals never wrap |
| `WeightedMapping.Accumulate` | almoxarifado/messaging/nats-server/server/accounts.go:769-773 | the 8-bit running sums are the prefix sums |
| `WeightedMapping.Select` | almoxarifado/messaging/nats-server/server/accounts.go:909-920 | the scan, and the single-entry fast path, pick the first destination whose sum exceeds the draw, or none |
| `WeightedMapping.DrawsMatchWeights` | almoxarifado/messaging/nats-server/server/accounts.go:769-773 | the draws that select a position are as many as its weight |
| `WeightedMapping.MappingIsFair` | almoxarifado/messaging/nats-server/server/accounts.go:707-775 | for every accepted list, every cluster and every order of equal weights, exactly as many of the 100 draws as the list gives a destination of the cluster are sent to it; what is missing to 100 is sent to the source, unless the list names it, and then nowhere; nothing else is sent to |
| `WeightedMapping.SortByWeight` | almoxarifado/messaging/nats-server/server/accounts.go:767 | the destinations in ascending order of weight, none lost and none added |
| `WeightedMapping.ProcessDestinations` | almoxarifado/messaging/nats-server/server/accounts.go:743-775 | completing a group to 100, sorting and accumulating it gives a table that is fair in this sense |
| `WeightedMapping.AddWeightedMappings` | almoxarifado/messaging/nats-server/server/accounts.go:698-792 | a list is accepted exactly when it may be, and then there is a fair table for messages of no cluster and for each cluster that is named, and no other table |
| `WeightedMapping.SelectMapping` | almoxarifado/messaging/nats-server/server/accounts.go:855-920 | a draw is sent where the table of the server's cluster sends it, or the general one when the mapping does not name that cluster |
| `ImportCycles.Check` | almoxarifado/messaging/nats-server/server/accounts.go:1610-1638 | the imperative search with its shared set of marks is the recursive one, and ends on every import graph |
| `ImportCycles.SearchIsExact` | almoxarifado/messaging/nats-server/server/accounts.go:1610-1638 | a search that ends clear has marked exactly the accounts marked before and those that a chain of colliding imports leaves, and no chain returned to one of them |
| `ImportCycles.RouteIsChain` | almoxarifado/messaging/nats-server/server/accounts.go:1610-1638 | a route, each of whose hops imports from the next account a service whose subject collides with the one at hand and goes on with the narrower of the two, is a chain that ends where it ends |
| `ImportCycles.ChainIsRoute` | almoxarifado/messaging/nats-server/server/accounts.go:1610-1638 | every chain is such a route |
| `ImportCycles.CycleReportIsExact` | almoxarifado/messaging/nats-server/server/accounts.go:1610-1638 | the search is clear exactly when no chain of colliding imports, under subject narrowing, ends in an account marked at the start or in one that a chain walked before it left by an import, and marked accounts and accounts left are fewer than the bound on depth; it reports a cycle only when a chain ends so, and depth only at the bound or above |
| `ImportCycles.SmallWorldIsDecided` | almoxarifado/messaging/nats-server/server/accounts.go:1610-1638 | on fewer accounts than the bound, depth is never reported, and the check is clear exactly when no chain ends so |
| `ImportCycles.PassedCheckFormsNoCycle` | almoxarifado/messaging/nats-server/server/accounts.go:1606-1638 | when the check passes, no chain from the destination leads back to the importing account, or to the destination in two or more steps |
| `ImportCycles.PassedCheckHasNoRouteBack` | almoxarifado/messaging/nats-server/server/accounts.go:1606-1638 | the same of routes: when the check passes, none from the destination leads to the importing account, nor in two or more hops to itself |
| `ImportCycles.DiamondIsRefused` | almoxarifado/messaging/nats-server/server/accounts.go:1610-1638 | a graph without any cycle is refused because two chains meet |
| `ServiceResponses.FinishAddKeeps` | almoxarifado/messaging/nats-server/server/accounts.go:2607-2608 | the second critical section of an addition keeps the tables consistent exactly when the response is still there or a removal has yet to drop its entry |
| `ServiceResponses.FinishRemoveKeeps` | almoxarifado/messaging/nats-server/server/accounts.go:1985-1998 | dropping the entry of a removed response keeps the tables consistent, whatever ran in between |
| `ServiceResponses.LoseInterestKeeps` | almoxarifado/messaging/nats-server/server/accounts.go:1979-1984 | taking a reply's entries off keeps the tables consistent |
| `ServiceResponses.ForgetOneKeeps` | almoxarifado/messaging/nats-server/server/accounts.go:2003-2026 | removing an undelivered response of such an entry keeps them consistent |
| `ServiceResponses.StepKeeps` | almoxarifado/messaging/nats-server/server/accounts.go:1931-2027 | each critical section keeps the tables consistent exactly when an addition's second section comes in time |
| `ServiceResponses.ConsistencyIsExact` | almoxarifado/messaging/nats-server/server/accounts.go:1787-2027 | over every interleaving of the critical sections all states are consistent exactly when every addition's second section comes in time |
| `ServiceResponses.TablesAgree` | almoxarifado/messaging/nats-server/server/accounts.go:1787-2027 | over every interleaving of the critical sections of any number of calls whose additions come in time, whenever no call is in flight every reverse entry points to a live response for that account and reply, and every undelivered response has exactly one reverse entry |
| `ServiceResponses.LateEntryDangles` | almoxarifado/messaging/nats-server/server/accounts.go:1787-1808 | an addition overtaken by a whole removal leaves a reverse entry that points to nothing |
| `ServiceResponses.SectionOnResponse` | almoxarifado/messaging/nats-server/server/accounts.go:1787-2027 | a response appears exactly when it is added, undelivered and for the account and reply it answers, goes exactly when a removal of it begins or it is forgotten undelivered, and is marked exactly by an attempt to deliver it |
| `ServiceResponses.SectionOnEntry` | almoxarifado/messaging/nats-server/server/accounts.go:1787-2027 | a reverse entry appears exactly when the addition of its response finishes, and goes exactly when a removal of its response finishes or its reply loses interest |
| `ServiceResponses.Accounts.AddRespServiceImport` | almoxarifado/messaging/nats-server/server/accounts.go:2577-2610 | a response and its reverse entry are added, and the tables stay consistent |
| `ServiceResponses.Accounts.RemoveRespServiceImport` | almoxarifado/messaging/nats-server/server/accounts.go:1787-1808 | the response and its entry are gone, also when either already was |
| `ServiceResponses.Accounts.DetachEntry` | almoxarifado/messaging/nats-server/server/accounts.go:1985-1998 | the first entry of the name is dropped, and the reply with its last entry |
| `ServiceResponses.Accounts.CheckForReverseEntry` | almoxarifado/messaging/nats-server/server/accounts.go:1969-2027 | without interest the reply's entries and their undelivered responses are gone; with interest nothing changes |
| `ServiceResponses.Accounts.TablesAgreeNow` | almoxarifado/messaging/nats-server/server/accounts.go:1931-2027 | between whole calls the tables agree |
| `ServiceResponses.Accounts.MarkDeliveryAttempt` | almoxarifado/messaging/nats-server/server/client.go:4899-4902 | a response whose delivery was attempted is marked |
| `TemplateExpansion.Advance` | almoxarifado/messaging/nats-server/server/auth.go:500-506 | one turn of the odometer takes the digits to the next mixed-radix number, and from the last to the first |
| `TemplateExpansion.WriteRow` | almoxarifado/messaging/nats-server/server/auth.go:493-499 | a row of the shared buffer holds the values the digits pick, and earlier rows stay |
| `TemplateExpansion.CartesianProduct` | almoxarifado/messaging/nats-server/server/auth.go:480-509 | the rows are those of the mixed-radix numbers from zero on; an empty list gives none |
| `TemplateExpansion.ExpandInvertsValue` | almoxarifado/messaging/nats-server/server/auth.go:480-509 | every tuple of indices is the expansion of its value |
| `TemplateExpansion.ValueInvertsExpand` | almoxarifado/messaging/nats-server/server/auth.go:480-509 | every row number is the value of its expansion |
| `TemplateExpansion.ValueIsLexicographic` | almoxarifado/messaging/nats-server/server/auth.go:500-506 | values are ordered as tuples are lexicographically |
| `TemplateExpansion.RowsEnumerateTuples` | almoxarifado/messaging/nats-server/server/auth.go:480-509 | every tuple is picked by one row and no other, in lexicographic order |
| `TemplateExpansion.ExpansionCount` | almoxarifado/messaging/nats-server/server/auth.go:599-609 | the division guard refuses exactly when the lists before the first empty one have a product beyond 4096, and otherwise gives the product |
| `TemplateExpansion.Resolve` | almoxarifado/messaging/nats-server/server/auth.go:543-587 | the value lists of a template, each with a value, or none when an operation is unknown or a tag is required and missing |
| `TemplateExpansion.MatchingIs` | almoxarifado/messaging/nats-server/server/auth.go:568-575 | a value is one of a tag's exactly when some tag is the prefix followed by it |
| `TemplateExpansion.TagValues` | almoxarifado/messaging/nats-server/server/auth.go:556-583 | a tag operation stands for exactly the values of the user's or the account's tags of its prefix; without any it is an error where it must be valid and a value that no subject holds elsewhere |
| `TemplateExpansion.KeptInOrder` | almoxarifado/messaging/nats-server/server/auth.go:610-624 | of the subjects exactly the valid ones are kept, in order |
| `TemplateExpansion.EmittedInOrder` | almoxarifado/messaging/nats-server/server/auth.go:535-627 | a list is expanded one template after the other |
| `TemplateText.TagIsRead` | almoxarifado/messaging/nats-server/server/auth.go:510-521 | tag(x) and account-tag(x) with blanks around them mean the tags of the user and of the account that start with x in lower case and a colon |
| `TemplateText.FixedIsRead` | almoxarifado/messaging/nats-server/server/auth.go:545-556 | the four operations without an argument mean name and subject of user and account, in any case |
| `TemplateText.TagKeepsItsCase` | almoxarifado/messaging/nats-server/server/auth.go:510-514 | a tag operation means the tags of its argument exactly when its name is in lower case; otherwise the name stays in front of the prefix |
| `TemplateText.SubjectIsFilled` | almoxarifado/messaging/nats-server/server/auth.go:588-618 | filling a subject with a row of values puts into each template the value of the first token of the same text and leaves everything else as it is |
| `TemplateText.RepeatedTemplateRepeats` | almoxarifado/messaging/nats-server/server/auth.go:588-624 | values at a repeated template change nothing, so the subject comes once for each of them |
| `TemplateExpansion.GuardIsExact` | almoxarifado/messaging/nats-server/server/auth.go:543-609 | on every template the guard refuses exactly the products beyond 4096, as every list of values has one |
| `TemplateExpansion.ApplyTemplate` | almoxarifado/messaging/nats-server/server/auth.go:515-627 | a list without templates is returned as it is; another is expanded in order exactly when every template is defined, valid where it must be, and fits the limit in its place |
| `TemplateExpansion.TaggedWithinLimit` | almoxarifado/messaging/nats-server/server/auth.go:610-624 | right after a tagged template at most 4096 subjects have been emitted |
| `TemplateExpansion.UntaggedIsUncapped` | almoxarifado/messaging/nats-server/server/auth.go:588-597 | templates without tags are never refused for their number |
| `ProxyProtocol.Conn.Read` | almoxarifado/messaging/nats-server/server/client_proxyproto.go:150-152 | a read takes a non-empty part of what is unread, in order, and leaves the buffer before it alone |
| `ProxyProtocol.Conn.ReadFull` | almoxarifado/messaging/nats-server/server/client_proxyproto.go:119-121 | the buffer is filled exactly when enough is unread, however it is chunked |
| `ProxyProtocol.FindCrlf` | almoxarifado/messaging/nats-server/server/client_proxyproto.go:159-167 | the first CRLF of the bytes read, or none |
| `ProxyProtocol.ReadV1Header` | almoxarifado/messaging/nats-server/server/client_proxyproto.go:138-229 | for every chunking, the outcome is that of the whole stream: the line up to the first CRLF within 107 bytes, and every byte after it either returned or unread |
| `ProxyProtocol.ParseV2Header` | almoxarifado/messaging/nats-server/server/client_proxyproto.go:318-376 | for every chunking, the outcome is that of the whole stream, and exactly the announced bytes are taken |
| `ProxyProtocol.ParseAddr` | almoxarifado/messaging/nats-server/server/client_proxyproto.go:379-415 | addresses and ports are those at their places in the address data, which may be longer |
| `ProxyProtocol.ReadHeader` | almoxarifado/messaging/nats-server/server/client_proxyproto.go:240-284 | for every chunking of every stream, the address or error is that of the whole stream, and bytes returned followed by bytes unread are the stream after the header, or the whole stream if it starts no header |
| `ProxyProtocol.HeaderDecides` | almoxarifado/messaging/nats-server/server/client_proxyproto.go:240-284 | a header is a prefix of the stream of at most 107 bytes or of the announced length, and decides the outcome whatever follows it |
| `ProxyProtocol.V1RoundTrip` | almoxarifado/messaging/nats-server/server/client_proxyproto.go:138-172 | a line without CRLF that fits is read up to its CRLF, and the payload is left |
| `ProxyProtocol.V1AddressIsRead` | almoxarifado/messaging/nats-server/server/client_proxyproto.go:174-229 | a line of two addresses of its family and two numerals denotes exactly these, source first, and a number beyond 16 bits is refused |
| `ProxyProtocol.V2RoundTrip` | almoxarifado/messaging/nats-server/server/client_proxyproto.go:318-415 | a rendered header gives back its addresses and ports, for both families and any extra data, and leaves the payload |
| `ProxyProtocol.V2Outcomes` | almoxarifado/messaging/nats-server/server/client_proxyproto.go:318-376 | a version 2 header has no address exactly for the LOCAL command or the unspecified family over a stream protocol, and has one exactly for IPv4 or IPv6 over a stream protocol with enough announced bytes; what follows the announced bytes is left |
| `ProxyProtocol.V2Refusals` | almoxarifado/messaging/nats-server/server/client_proxyproto.go:318-415 | each refusal of a version 2 header, for version, command, protocol and family, length, or a stream that ends, is given exactly on its own condition |
| `ProxyProtocol.UnknownHasNoAddress` | almoxarifado/messaging/nats-server/server/client_proxyproto.go:174-190 | a version 1 line is accepted without an address exactly when its first field is UNKNOWN |
| `ProxyProtocol.V1LineMissing` | almoxarifado/messaging/nats-server/server/client_proxyproto.go:138-172 | without a CRLF in place a version 1 header is too long from 107 bytes on and incomplete before |
| `ProxyProtocol.OtherStreamsPass` | almoxarifado/messaging/nats-server/server/client_proxyproto.go:116-136 | a stream is passed on whole exactly when it has six bytes and starts neither as version 1 nor as version 2 |
| `EventBus.QueueTakes` | oficina/ads-ai-hub/app/main.py:86-95 | a queue takes an event, at its end, exactly when fewer than 256 are queued |
| `EventBus.TableHoldsLastPublished` | oficina/ads-ai-hub/app/main.py:86-95 | over every run the table holds for each agent exactly the state it published last, and nothing for agents that published none |
| `EventBus.OfferInforms` | oficina/ads-ai-hub/app/main.py:86-95 | publishing keeps every subscriber informed of all agents but those whose latest event its queue had no room for |
| `EventBus.BeginInforms` | oficina/ads-ai-hub/app/main.py:192-193 | a snapshot makes up for lost events unless an older event of the agent is still queued behind it |
| `EventBus.StepInforms` | oficina/ads-ai-hub/app/main.py:86-205 | every step keeps every subscriber informed of exactly the agents not lost to it |
| `EventBus.DrainedViewIsCurrent` | oficina/ads-ai-hub/app/main.py:188-205 | over every run, a subscriber with an empty queue that applies its frames in order holds an agent's last state exactly when the agent's latest event was not lost |
| `EventBus.DrainedViewIsExact` | oficina/ads-ai-hub/app/main.py:188-205 | a subscriber whose queue never overflowed holds exactly the last state of every agent, also with events queued before its snapshot |
| `EventBus.PulseOrders` | oficina/ads-ai-hub/app/main.py:199-201 | a heartbeat keeps the frames in order exactly when no event is queued behind it |
| `EventBus.StepOrders` | oficina/ads-ai-hub/app/main.py:63-205 | every step keeps events in order, and all frames after the snapshot exactly when heartbeats find no event queued |
| `EventBus.FramesIncrease` | oficina/ads-ai-hub/app/main.py:188-205 | over every run events have strictly increasing numbers per subscriber, and so have all frames after the snapshot when heartbeats find no event queued |
| `EventBus.SnapshotOrders` | oficina/ads-ai-hub/app/main.py:192-193 | a snapshot is in order with what follows it exactly when nothing is queued before it |
| `EventBus.FramesIncreaseExactly` | oficina/ads-ai-hub/app/main.py:188-205 | over every run, the frames of a subscriber that stays have increasing numbers exactly when every heartbeat for it finds no event queued |
| `EventBus.LateEventIsOutOfOrder` | oficina/ads-ai-hub/app/main.py:193-201 | an event published between a timeout and its heartbeat follows it with a smaller number, and so does one queued before the snapshot |
| `EventBus.Hub.NextSequence` | oficina/ads-ai-hub/app/main.py:63-66 | the next number of the global sequence |
| `EventBus.Hub.PublishAgentState` | oficina/ads-ai-hub/app/main.py:86-95 | number, table and every subscriber's queue change as the step says |
| `EventBus.Hub.SendSnapshot` | oficina/ads-ai-hub/app/main.py:190-193 | whoever applies the frame holds all last states at once |
| `EventBus.Hub.SendNext` | oficina/ads-ai-hub/app/main.py:194-201 | what the subscriber will hold in the end is unchanged, and a heartbeat changes nothing it holds |

## Left out

- Time zones other than UTC and daylight saving in the cron search.
- Unicode: runes are characters of width one, digits and white space are ASCII, and
  invalid UTF-8 is not modelled.
- The texts of error messages, and which of several errors is reported where the
  model has one kind.
- The values of floats and dates and the joining of file paths: whether a float or date
  can be read is judged by parameters. An include that differs between the two parsing
  modes is excluded from `PedanticMeansPlain` by its precondition.
- ConfText.DocumentRoundTrip: floats, addresses, dates, escapes, variables and includes have
  laws of their own, for a value or statement of the document; block strings and text in a
  block without a key have none beyond those of all texts. A quoted key holds neither its
  own quote nor NUL, for which the lexer has no escape; unquoted text starts with a letter;
  one blank separates where blanks may; a comment stands on a line of its own.
- ConfIncludes.IncludedFileIsParsed: an include at the top of a text. One in a map goes
  through the same states and is covered by `ConfLexer.Step` and `SetIncludedIsSafe`.
- ConfVariables.VariableIsParsed: the variable is the last field of the last map.
- The lexer works on values instead of fields updated in place: its input, position and
  stack have no aliases in the source. The channel of items is the sequence it sends.
- ExpirationTracking: keys stand for the pointers to items and list elements, so that
  one key has one item; directory sharding, permissions and symbolic links of the store,
  change callbacks, list and delete requests.
- JwtSync.ReplicasConverge: replicas merge and do not save, expire or hit a limit while
  they sync; a pack is sent one file at a time, as the source does.
- The comparison of digests by which a replica skips sending a pack, and `PackWalk`, which
  sends the same lines in several messages.
- JwtStore: one reload runs at a time, it lists the directory at one moment, and reading or
  writing a file is one step; read-only stores and stores set up without deletion refuse
  before any of these operations.
- IpQueue: recycling returns the slice to a pool, of which only the count in progress is
  modelled; registration by name.
- Reply subjects with wildcards, and the goroutine that walks all reverse entries for
  them; latency tracking and subscriptions of responses; `updateAccountClaimsWithRefresh`.
- ImportCycles.CycleReportIsExact: the order in which an account's imports are walked is that
  of a list, where the source ranges over a map; the condition speaks of that order.
- The search for cycles of stream imports, which has the same form.
- Subject transforms of weighted mappings: a mapping is valid or not by a parameter.
- WeightedMapping.SortByWeight: an insertion sort stands for the library's sort, which
  promises no order of equal weights; `MappingIsFair` holds for every such order.
- TemplateText.SubjectIsFilled: template texts hold no braces inside and values hold no
  opening brace; the regular expression that finds templates is a parameter, and letters
  are compared without case for ASCII only.
- Timeouts of PROXY header reads, and `readProxyProtoV2Header`, which reads the same header
  in one piece; splitting a line into fields and parsing addresses are parameters.
- The fields of an agent's visual state: an agent's state is one value, replaced by each
  event. Authentication, the mission runner, the model gateway and the HTTP layer.
- TLS, bcrypt, nkeys, JetStream, routes, gateways, leaf nodes and monitoring.
