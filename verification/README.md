# Verified core of a mail server

This project models the parts of the server whose behaviour is hardest to see from the code and proves what they are for. There are seven groups of modules, each after the source files it models.

- **Expressions** (`ExprSyntax`, `ExprParser`, `ExprCompiler`, `ExprMachine`, `ExprJumps`, `ExprLadder`, `ExprValues`): the configuration language. A shunting-yard parser turns tokens into postfix code with short-circuit jumps, and a stack machine runs that code. Proved: the parser followed by the machine computes the meaning of every expression of a grammar whose levels list their operators, each item of the code computes its table of values, and the jumps of any accepted token sequence, well formed or not, are properly nested.
- **IMAP request receiver** (`Receiver`, `ReceiverSafety`, `ReceiverRoundTrip`, `ReceiverSpacing`, `ReceiverQuoted`, `ReceiverRefusal`, `ReceiverErrors`, `ReceiverObject`): a byte-driven state machine. Proved: the cutting of the stream into reads does not matter, nothing of a finished request is left behind, the size limit is kept in every reachable state, a printed request is read back exactly when it fits and whatever its spacing, and what breaks the syntax is answered with its own error.
- **Patterns** (`Glob`, `LocalKeys`): the glob compiler and the matching loop that remembers one star only, against the meaning of the pattern text; and exactly when the faster matcher for configuration keys agrees with it.
- **Mailbox names** (`Utf7`, `Utf7Digits`): modified UTF-7, bit by bit in both directions, with the round trip exactly for names in the basic multilingual plane.
- **Graphs** (`Roles`, `RoleOrder`, `MailboxTree`, `MailboxSearch`): the permissions of a role over a possibly cyclic graph with a cache, and the mailbox tree built by a search with suspended iterators.
- **Backup and restore** (`BackupFile`, `StoreKeys`, `Restore`, `Backup`, `BackupStore`, `BackupFlat`): the framing of dump files, the delta-compressed operation stream, and its replay in batches that may be cut anywhere. Proved: an empty store holds exactly the dumped records after a restore.
- **Limits and ids** (`ConcurrencyLimiter`, `RateLimiter` in `Limiter.dfy`; `Snowflake`, `SnowflakeBits`): the concurrency limit under every interleaving of its atomic steps, the rate limit over whole runs, and the uniqueness and order of generated ids.

`Prelude` holds what several modules use. Code that updates fields or local variables is modelled as classes and methods with loops, each proved equal to a function of the old state; the theorems are about those functions. `dafny verify dfyconfig.toml` checks everything.

## Findings

Where a property one would expect does not hold of the code, the model keeps the code, gives an input, and states the exact condition.

- An array literal is rejected by the parser when an element begins with a parenthesis or a unary operator, because such an element is not counted (crates/common/src/expr/parser.rs:226-237). `ExprCompiler.GroupedElementRefused` is `[(x)]`; `ExprCompiler.ParsePrinted` is the condition.
- The length limit of a quoted argument is not applied to backslashes, nor to the second of two bytes kept at once (crates/imap-proto/src/receiver.rs:285-300). `ReceiverRoundTrip.QuotedAtLimit` is 1025 letters and 1025 backslashes, `ReceiverQuoted.PairAtLimit` is 1023 letters, a backslash and a letter; `ReceiverQuoted.ReadableIff` is the condition over all bodies: beyond 1024 bytes there are only backslashes, or first one byte other than a quote with a backslash before it.
- The fast matcher for configuration keys strips one star only (crates/common/src/manager/config.rs:536-548). `LocalKeys.TwoStarsMisread` is `*a*`, `LocalKeys.BothStars` says what such patterns match instead, and `LocalKeys.FastAgreesIff` is the condition.
- Characters are cut to sixteen bits before they are encoded (crates/imap-proto/src/utf7.rs:80-81). `Utf7.FaceLost` and `Utf7.LetterLookalike` are two names; `Utf7.RoundTripIffBmp` says which names survive, and `Utf7.EncodedAscii` which are encoded in ASCII.
- The walk over roles stops at the administrator role, so that the disabled permissions found can be incomplete (crates/common/src/auth/roles.rs:67-73). `Roles.AdminHidesDisabled` is a graph; `RoleOrder.DisabledExactIff` is the condition for one order of the parent lists, and `RoleOrder.CompleteIffPathsTellAll` the one for every order and every right cache.
- The concurrency limiter reads its counter before it adds to it (crates/common/src/listener/limiter.rs:89-99). `ConcurrencyLimiter.LimitReached` is a run that exceeds the limit by the number of callers less one; `ConcurrencyLimiter.KeepsLimitIff` is the condition, and `ConcurrencyLimiter.GuardsBounded` the bound by overlapping calls.
- The rate limiter refills when the next call finds it due, so that the tokens of two periods can be used in one (crates/common/src/listener/limiter.rs:48-63). `RateLimiter.BoundReached` is a run; `RateLimiter.KeepsToRequestsIff` is the condition. With a period below one second every call passes (`RateLimiter.ZeroPeriod`).
- The search for mailbox paths has no end when a chain of parents below a root goes round in a circle, or when a root has no id (crates/cli/src/modules/import.rs:965-990). `MailboxSearch.CircleBelowRoot` and `MailboxSearch.RootWithoutId` are such lists; `MailboxSearch.EndsIff` is the condition: the loop is left if and only if no chain passes a mailbox twice.
- A document-bound entry after a bitmap of another family is written at the document the batch stands at (crates/common/src/manager/restore.rs:327-343). `Restore.BitmapThenProperty` is such a dump; `Restore.RestoreFile` says what is written for every file, and `Restore.PlacedOutcome` when that is what the dump says, as it is for all dumps the server writes.
- Two forms of a bitmap tag are one class in the store (crates/common/src/manager/restore.rs:281-301). `StoreKeys.TagsMerge` is the pair; `StoreKeys.WrittenApart` says that a backup never writes both.

## Model

| member | source | states |
|---|---|---|
| ExprCompiler.RunExpr | crates/common/src/expr/parser.rs:29-224 | From any parser state an expression fits into, its tokens append its code up to operators that every later pop loop takes, or fail if it is not accepted |
| ExprCompiler.PopBinary | crates/common/src/expr/parser.rs:113-154 | Popping a pending operator patches its jump to the operator's own position |
| ExprCompiler.RunAll | crates/common/src/expr/parser.rs:226-237 | A comma-separated list is compiled element by element, and the counters end at the number of elements that are counted |
| ExprCompiler.ParsePrinted | crates/common/src/expr/parser.rs:29-224 | The parser turns the tokens of a tree into the tree's code if and only if calls have their declared number of arguments and no array element begins with a parenthesis or unary operator, and else reports a wrong number of arguments |
| ExprCompiler.GroupedElementRefused | crates/common/src/expr/parser.rs:226-237 | `[(x)]` is refused, for every variable |
| ExprLadder.Levels | crates/common/src/expr/parser.rs:258-270 | The grammar by binding strength is the ladder or, and, xor, equality, comparison, sum, product, operand, with the operators of each level by name |
| ExprLadder.ParseLadder | crates/common/src/expr/parser.rs:29-224 | Every printed tree of the ladder is parsed to its left-associative code, which computes its meaning, unless an argument count is wrong |
| ExprLadder.Grouping | crates/common/src/expr/parser.rs:113-132 | For every two operators, which of them takes the operand between them: the tighter one by an explicit list, else the left one |
| ExprLadder.OrOfAnd | crates/common/src/expr/parser.rs:113-154 | The code of `a or b and c`, item by item: the jump of `or` passes over all of `b and c` |
| ExprLadder.Unbalanced | crates/common/src/expr/parser.rs:52-72 | A bracket that is never closed, never opened, or closed by the other kind is an error of its own kind, around every expression |
| ExprLadder.MatchArguments | crates/common/src/expr/parser.rs:100-108 | A match with any other number of arguments than one is refused |
| ExprLadder.MissingIndex | crates/common/src/expr/parser.rs:74-86 | `x[]` is refused for its missing index |
| ExprMachine.PopArguments | crates/common/src/expr/eval.rs:152-262 | Arguments are taken from the stack in the order they were pushed, with the source's default for a short stack |
| ExprMachine.Eval | crates/common/src/expr/eval.rs:152-262 | The loop over items, value stack and program counter runs the code from start to end, jumps included |
| ExprMachine.ExecCompile | crates/common/src/expr/eval.rs:152-262 | The code of an accepted tree, before any code and on any stack, pushes the short-circuit, left-to-right meaning and leaves the stack below alone |
| ExprMachine.CompilerCorrect | crates/common/src/expr/parser.rs:29-224 | Parsing succeeds exactly for accepted trees, and running the parsed code on any stack, captures and call history yields the tree's meaning |
| ExprMachine.EvalIf | crates/common/src/expr/eval.rs:123-149 | A parsed if-block yields the first branch whose condition holds, or the default, with the captures its condition left |
| ExprValues.FirstTrue | crates/common/src/expr/eval.rs:123-149 | The first condition that is true or fails decides, and each is evaluated with the captures and calls of the one before; without any the default decides |
| ExprValues.UnaryYields | crates/common/src/expr/eval.rs:179-185 | On any stack, `not` pushes 1 for zero, the empty string and the empty array, and 0 for every other value |
| ExprValues.BinaryYields | crates/common/src/expr/eval.rs:186-204 | The truth tables of and, or and xor over all kinds of values; the other operators get the lower value as their left operand |
| ExprValues.JumpYields | crates/common/src/expr/eval.rs:222-228 | A jump is taken exactly when the top value is as false, or true, as it says |
| ExprValues.IndexYields | crates/common/src/expr/eval.rs:229-237 | An index yields that item of the array or the empty string; another value is its own first item |
| ExprValues.RegexYields | crates/common/src/expr/eval.rs:246-258 | A match replaces the captures by its groups and yields 1; no match clears them and yields 0 |
| ExprValues.PushYields | crates/common/src/expr/eval.rs:164-178 | A capture beyond the list is the empty string |
| ExprValues.ListYields | crates/common/src/expr/eval.rs:205-245 | Calls and array literals get the values in the order pushed; a failing call ends the evaluation, a successful one is recorded |
| ExprValues.MissingItems | crates/common/src/expr/eval.rs:238-245 | Missing items of an array are empty strings before those that are there |
| ExprValues.MissingOperands | crates/common/src/expr/eval.rs:179-204 | Missing operands are empty strings, and so is the result of no code |
| ExprValues.NotTable | crates/common/src/expr/eval.rs:383-385 | `!v` for every value, as a whole evaluation |
| ExprValues.ShortCircuitTable | crates/common/src/expr/eval.rs:222-228 | And and or with their jumps, for every two values: the left value itself if it decides, else the truth of the right one |
| ExprJumps.StepSound | crates/common/src/expr/parser.rs:29-224 | Every token keeps the jump and argument-count invariant, and neither pop of the counts can fail |
| ExprJumps.RunSound | crates/common/src/expr/parser.rs:29-224 | The invariant holds after every token sequence |
| ExprJumps.JumpStructure | crates/common/src/expr/parser.rs:245-256 | For every accepted token sequence each jump leads to its own and/or item, and jump spans are nested or disjoint; parsing never panics |
| ExprJumps.ExpressionParser.IncArgCount | crates/common/src/expr/parser.rs:226-237 | An operand counts for the innermost open call and for the array literal two slots down |
| ExprJumps.ExpressionParser.PopOperator | crates/common/src/expr/parser.rs:62-69 | One operator moves to the output with its jump patched |
| ExprJumps.ExpressionParser.PopOperators | crates/common/src/expr/parser.rs:113-132 | All operators that yield to the precedence move to the output |
| ExprJumps.ExpressionParser.FinishGroup | crates/common/src/expr/parser.rs:74-111 | The entry below the opening token is emitted if the counted arguments agree |
| ExprJumps.ExpressionParser.CloseGroup | crates/common/src/expr/parser.rs:52-112 | A closing token ends the innermost group or reports a mismatch |
| ExprJumps.ExpressionParser.PushBinaryOperator | crates/common/src/expr/parser.rs:113-154 | An operator is pushed after its jump placeholder when it short-circuits |
| ExprJumps.ExpressionParser.Consume | crates/common/src/expr/parser.rs:33-217 | One turn of the loop equals the step function on parser states |
| ExprJumps.ExpressionParser.ParseAll | crates/common/src/expr/parser.rs:29-224 | The parser object computes the parse function, and keeps its invariant |
| Receiver.SplitIndependent | crates/imap-proto/src/receiver.rs:140-385 | Feeding two chunks gives the events and state of feeding their concatenation |
| Receiver.EndsFresh | crates/imap-proto/src/receiver.rs:95-263 | After a completed request or a failure the state is that of a new receiver: also the buffer, which completion does not clear, is empty by then |
| Receiver.HistoryIndependent | crates/imap-proto/src/receiver.rs:95-109 | What follows a completed or failed request is processed as on a new connection |
| ReceiverSafety.StepOk | crates/imap-proto/src/receiver.rs:140-385 | Every byte keeps the size accounting, the emptiness of the buffer after a space, and the room reserved for a literal |
| ReceiverSafety.Reachable | crates/imap-proto/src/receiver.rs:111-138 | In every reachable state the tokens held weigh at most the accounted size, and that at most the limit; tags, commands, literals and quoted strings are capped |
| ReceiverSafety.EveryRequestFits | crates/imap-proto/src/receiver.rs:111-138 | No completed request of any stream weighs more than the limit |
| ReceiverSafety.LiteralBytes | crates/imap-proto/src/receiver.rs:370-380 | The announced number of bytes, whatever they are, become one argument without any event |
| ReceiverSafety.LiteralKept | crates/imap-proto/src/receiver.rs:353-380 | Once a literal is accepted and its line ends, its bytes cannot run into a size error |
| ReceiverRoundTrip.QuotedBody | crates/imap-proto/src/receiver.rs:273-305 | A string with only quotes and backslashes escaped is read back exactly if each of its other bytes comes before position 1024, else the first event is the length error |
| ReceiverRoundTrip.QuotedAtLimit | crates/imap-proto/src/receiver.rs:285-290 | 1025 letters are refused and 1025 backslashes are read back |
| ReceiverQuoted.CappedRead | crates/imap-proto/src/receiver.rs:273-305 | Every string without line feeds within the cap is read from some body |
| ReceiverQuoted.ReadableIff | crates/imap-proto/src/receiver.rs:273-305 | Over all bodies, a quoted string can hold exactly the capped strings without line feeds |
| ReceiverQuoted.PairAtLimit | crates/imap-proto/src/receiver.rs:294-300 | 1023 letters, a backslash and a letter make an argument of 1025 bytes |
| ReceiverQuoted.BufferBound | crates/imap-proto/src/receiver.rs:140-385 | In which phases the buffer is bounded, and by what, over every stream |
| ReceiverQuoted.AtomGrows | crates/imap-proto/src/receiver.rs:265-272 | An atom grows to every length before anything is charged for it |
| ReceiverQuoted.SizeGrows | crates/imap-proto/src/receiver.rs:306-352 | The digits of a literal's size grow to every length |
| ReceiverQuoted.BackslashesGrow | crates/imap-proto/src/receiver.rs:285-290 | The backslashes of a quoted string grow to every length |
| ReceiverRoundTrip.AtomRuns | crates/imap-proto/src/receiver.rs:215-272 | An atom becomes one argument |
| ReceiverRoundTrip.LitRuns | crates/imap-proto/src/receiver.rs:306-380 | A literal becomes one argument and prompts once if it is a synchronizing one |
| ReceiverRoundTrip.PieceRuns | crates/imap-proto/src/receiver.rs:215-380 | Each kind of printed token followed by a space adds its own token and cost |
| ReceiverRoundTrip.TailRuns | crates/imap-proto/src/receiver.rs:215-380 | All printed tokens of a request up to the line end are read in order |
| ReceiverRoundTrip.HeaderRuns | crates/imap-proto/src/receiver.rs:143-214 | Tag and command, with or without the UID prefix, are read from either start state |
| ReceiverRoundTrip.RoundTrip | crates/imap-proto/src/receiver.rs:140-385 | A printed request within the limit yields one prompt per synchronizing literal, then itself, and leaves the receiver fresh |
| ReceiverSpacing.EndsStep | crates/imap-proto/src/receiver.rs:230-272 | At a blank, a structural byte or the line feed a buffered argument counts as pushed before the byte |
| ReceiverSpacing.TextRuns | crates/imap-proto/src/receiver.rs:215-380 | Tokens come back in printed order with any blanks between them, or none where a structural token parts them |
| ReceiverSpacing.NameAnyCase | crates/imap-proto/src/receiver.rs:177-183 | Command names are read in either case, letter by letter |
| ReceiverSpacing.AnySpacing | crates/imap-proto/src/receiver.rs:140-385 | The round trip for every layout: blanks before and after the tag, the UID prefix and the name, names in either case, and any joints between tokens |
| ReceiverSpacing.InParentheses | crates/imap-proto/src/receiver.rs:230-257 | `(x)` without blanks is an opening parenthesis, the argument and a closing one, for every atom |
| ReceiverRefusal.PieceRefused | crates/imap-proto/src/receiver.rs:111-138 | A token that would pass the limit fails the request at once |
| ReceiverRefusal.AnsweredIffFits | crates/imap-proto/src/receiver.rs:111-138 | A printed request is answered by itself if and only if its tokens fit the limit; otherwise the first event but prompts is a size failure |
| ReceiverErrors.TagErrors | crates/imap-proto/src/receiver.rs:150-175 | An invalid tag, a tag without a command and a tag of more than 128 bytes get their own errors |
| ReceiverErrors.CommandErrors | crates/imap-proto/src/receiver.rs:176-214 | An unknown name, one of more than fifteen letters and digits, and one with another byte get their own errors |
| ReceiverErrors.QuoteErrors | crates/imap-proto/src/receiver.rs:291-293 | A line feed within any quoted string is answered with an error |
| ReceiverErrors.LiteralErrors | crates/imap-proto/src/receiver.rs:306-352 | A literal without a size, with one of 2^32 or more or beyond the room left, or with another byte in its braces gets its own error |
| ReceiverErrors.NewlineExpected | crates/imap-proto/src/receiver.rs:353-369 | A byte other than a blank between a literal's braces and the line end is an error |
| ReceiverObject.RequestReceiver.ErrorReset | crates/imap-proto/src/receiver.rs:95-109 | The failure carries the tag, and the object is reset to its start state |
| ReceiverObject.RequestReceiver.TakeArgument | crates/imap-proto/src/receiver.rs:111-126 | The buffer becomes an argument unless it passes the limit |
| ReceiverObject.RequestReceiver.AppendToken | crates/imap-proto/src/receiver.rs:128-138 | A structural token is added unless the limit is reached |
| ReceiverObject.RequestReceiver.Finish | crates/imap-proto/src/receiver.rs:258-263 | With the buffer already empty the request is handed out and the object is as new |
| ReceiverObject.RequestReceiver.Accept | crates/imap-proto/src/receiver.rs:140-385 | One byte changes the object as the step function says |
| ReceiverObject.RequestReceiver.Parse | crates/imap-proto/src/receiver.rs:140-385 | Bytes are consumed up to the first event, and the object then equals the fold over those bytes |
| ReceiverObject.RequestReceiver.ReadChunk | crates/imap-proto/src/receiver.rs:140-385 | Parsing a read until more data is needed gives all events of the fold |
| ReceiverObject.ReadTwice | crates/imap-proto/src/receiver.rs:140-385 | Two reads in a row report the same events and end in the same state as one read of both |
| Glob.Compile | crates/utils/src/glob.rs:21-62 | The compiling loop yields the compiled form: escapes resolved, runs of stars collapsed |
| Glob.CompileCorrect | crates/utils/src/glob.rs:21-62 | The compiled pattern matches exactly the texts the pattern string means |
| Glob.OlderStar | crates/utils/src/glob.rs:65-109 | What an older star could still match, a newer star can: forgetting the older one is safe |
| Glob.MatchValue | crates/utils/src/glob.rs:65-109 | The loop with one remembered star terminates and decides the recursive matching relation |
| Glob.GlobMatches | crates/utils/src/glob.rs:21-109 | Compiling and matching decide the meaning of the pattern string |
| LocalKeys.FastExactOne | crates/common/src/manager/config.rs:536-558 | For an exact pattern the fast matcher gives the glob's answer on every key |
| LocalKeys.FastInexact | crates/common/src/manager/config.rs:536-558 | Every other pattern has a key on which the two differ |
| LocalKeys.FastAgreesIff | crates/common/src/manager/config.rs:536-558 | The fast matcher agrees with the glob on all keys if and only if the text around the star it strips is plain |
| LocalKeys.TwoStarsMisread | crates/common/src/manager/config.rs:536-548 | `*a*` matches `a` as a glob and not as a fast pattern |
| LocalKeys.BothStars | crates/common/src/manager/config.rs:536-548 | A pattern with a star at both ends matches exactly the keys that begin with its first star and text as they stand |
| LocalKeys.IsLocalKey | crates/common/src/manager/config.rs:513-532 | The loop answers yes if and only if some include matches and no exclude does, whatever the order of the patterns |
| Utf7.RankInvertsDigit | crates/imap-proto/src/utf7.rs:12-21 | The decoding table inverts the encoding alphabet, and nothing else decodes |
| Utf7Digits.DigitIsLetter | crates/imap-proto/src/utf7.rs:21-21 | The digits are the letters of the alphabet as written out |
| Utf7Digits.EncodeSpelled | crates/imap-proto/src/utf7.rs:74-122 | The encoding is the text with each run of other characters replaced by the bits of its units, most significant first, in groups of six padded with zeros, between an ampersand and a dash |
| Utf7Digits.DecodeRead | crates/imap-proto/src/utf7.rs:23-72 | Decoding any text, well formed or not, reads the bits of each run sixteen at a time, drops what is left, and fails exactly at a character that is no digit |
| Utf7Digits.Utf16RoundTrip | crates/imap-proto/src/utf7.rs:71-71 | Every text is read back from its UTF-16 units |
| Utf7Digits.Utf16Exact | crates/imap-proto/src/utf7.rs:71-71 | Units that are read as a text are that text in UTF-16 |
| Utf7.UnitsRoundTrip | crates/imap-proto/src/utf7.rs:23-122 | From any pending bits the decoder reads back the sixteen-bit units of any text |
| Utf7.RoundTripIffBmp | crates/imap-proto/src/utf7.rs:23-122 | Decoding the encoding gives the name back if and only if all characters are in the basic multilingual plane |
| Utf7.EncodedAscii | crates/imap-proto/src/utf7.rs:74-122 | The encoding is printable ASCII if and only if no character outside that plane has printable low sixteen bits, other than the ampersand's |
| Utf7.FaceLost | crates/imap-proto/src/utf7.rs:80-81 | U+1F600 comes back as U+F600 |
| Utf7.LetterLookalike | crates/imap-proto/src/utf7.rs:83-97 | U+10041 is passed through as it is |
| Utf7.TakeDigits | crates/imap-proto/src/utf7.rs:104-110 | The inner loop takes the whole six-bit digits from the top of the 32-bit accumulator |
| Utf7.EncodeText | crates/imap-proto/src/utf7.rs:74-122 | The encoding loop with its shifting accumulator computes the encoding |
| Utf7.DecodeText | crates/imap-proto/src/utf7.rs:23-72 | The decoding loop computes the decoding, failing on the same inputs |
| Roles.StepOk | crates/common/src/auth/roles.rs:60-157 | Every step keeps the cache right and what is collected within the closure; a missing role is reachable |
| Roles.DoneAnswers | crates/common/src/auth/roles.rs:60-157 | When nothing is left to visit, the permissions collected are the closure's |
| Roles.WalkCorrect | crates/common/src/auth/roles.rs:60-157 | On any graph, cycles included, the walk ends, keeps every cache entry right, and answers for the root or names a reachable missing role |
| Roles.BuildCorrect | crates/common/src/auth/roles.rs:45-157 | The result is the union over all reachable roles; with the administrator role reachable all is enabled, and the disabled set lies between that of some path to it and the closure's; without it the walk succeeds if and only if every reachable role is stored |
| Roles.BuildGrants | crates/common/src/auth/roles.rs:45-157 | Permission by permission: enabled are exactly those of the user and tenant administrator roles reached and those that stored roles reached list below the count; disabled only and, without the administrator role, all those that stored roles reached list; with it all is enabled |
| Roles.AnswersGrant | crates/common/src/auth/roles.rs:60-126 | The same for every answer and cache entry |
| RoleOrder.WalkFollows | crates/common/src/auth/roles.rs:51-147 | The stack of suspended lists visits the roles in depth-first order, cut at the administrator role |
| RoleOrder.DisabledExactIff | crates/common/src/auth/roles.rs:45-157 | For the lists as stored the result is the union along that order, and the disabled set is complete if and only if each permission in it is disabled by a role that comes before the administrator role |
| RoleOrder.PathsSuffice | crates/common/src/auth/roles.rs:45-157 | If each path to the administrator role disables all that is reachable, the disabled set is complete for every order and every right cache |
| RoleOrder.Missed | crates/common/src/auth/roles.rs:67-73 | If some path does not, there is an order of the lists that misses a permission |
| RoleOrder.CompleteIffPathsTellAll | crates/common/src/auth/roles.rs:45-157 | Completeness for every order and every right cache, if and only if |
| Roles.RoleCache.GetRolePermissions | crates/common/src/auth/roles.rs:30-43 | The three built-in roles have their own permissions; cached or computed, the answer is right permission by permission, and the cache stays right |
| Roles.RoleCache.BuildRolePermissions | crates/common/src/auth/roles.rs:45-157 | The loop over the suspended role lists computes the walk |
| Roles.AdminHidesDisabled | crates/common/src/auth/roles.rs:60-73 | A graph on which the walk stops at the administrator role before it sees a disabled permission of the closure |
| MailboxTree.TrailDistinct | crates/cli/src/modules/import.rs:952-994 | With distinct ids a chain of parents from a root never passes a mailbox twice |
| MailboxTree.FiniteIff | crates/cli/src/modules/import.rs:965-990 | Chains are bounded if and only if none passes a mailbox twice; otherwise there are chains of every length |
| MailboxSearch.SearchEnds | crates/cli/src/modules/import.rs:965-990 | With bounded chains the loop is left, with the entries of all chains |
| MailboxSearch.AheadBounded | crates/cli/src/modules/import.rs:965-990 | A search that is left within n turns has no chain ahead that is more than n longer than the present one |
| MailboxSearch.EndsIff | crates/cli/src/modules/import.rs:965-990 | The loop is left if and only if no chain from a root passes a mailbox twice |
| MailboxSearch.CircleBelowRoot | crates/cli/src/modules/import.rs:965-990 | On two mailboxes with one id, one its own parent, the loop is never left |
| MailboxSearch.RootWithoutId | crates/cli/src/modules/import.rs:960-977 | On any list with a root without an id the loop is never left |
| MailboxTree.DistinctFinite | crates/cli/src/modules/import.rs:952-994 | When every mailbox has an id of its own chains are bounded, whatever the parents |
| MailboxTree.InsertsSound | crates/cli/src/modules/import.rs:966-984 | Every entry made is the path of a chain from a root |
| MailboxTree.InsertsComplete | crates/cli/src/modules/import.rs:966-984 | Every chain from a root gets an entry |
| MailboxTree.BuildMailboxTree | crates/cli/src/modules/import.rs:952-994 | Where chains are bounded, which is exactly where it ends, the loop takes the steps of the search and makes exactly the entries of the depth-first traversal |
| MailboxTree.TreeExact | crates/cli/src/modules/import.rs:952-994 | The keys are the paths of the rooted mailboxes; with distinct sibling names each path leads to its mailbox |
| MailboxTree.TreeInjective | crates/cli/src/modules/import.rs:952-994 | No two paths lead to the same mailbox |
| MailboxTree.SizeIffForest | crates/cli/src/modules/import.rs:991-991 | The map has as many entries as there are mailboxes if and only if every mailbox is rooted and siblings have distinct names |
| BackupFile.FamilyOf | crates/common/src/manager/restore.rs:457-477 | A family byte reads back as the family that writes it, and the marker for no family never does |
| BackupFile.WriteFile | crates/common/src/manager/backup.rs:1098-1134 | The writer's loop yields the header and one frame per operation |
| BackupFile.FrameBytes | crates/common/src/manager/backup.rs:1098-1134 | The bytes of the header and of every kind of operation, with the families by number and lengths most significant byte first |
| BackupFile.OpReader.ExpectSized | crates/common/src/manager/restore.rs:446-454 | A sized field is taken whole from the rest of the file, or the read fails |
| BackupFile.OpReader.ReadNext | crates/common/src/manager/restore.rs:415-436 | One call reads one operation, the end, or a failure, and leaves the rest |
| BackupFile.U32RoundTrip | crates/store/src/write/mod.rs:302-306 | The four bytes of a length read back as the length modulo 2^32 |
| BackupFile.ReadFrame | crates/common/src/manager/restore.rs:415-436 | A frame before any bytes reads back as its operation and those bytes if it is framable, else never as that operation |
| BackupFile.FileRoundTrip | crates/common/src/manager/restore.rs:389-455 | A written dump reads back as the same operations if and only if no family is missing and all lengths are below 2^32 |
| BackupFile.CutDump | crates/common/src/manager/restore.rs:389-455 | A dump cut at any byte gives the operations written whole, and the cut goes unnoticed only between two operations |
| BackupFile.UnknownFrame | crates/common/src/manager/restore.rs:415-436 | After any operations a frame of an unknown kind or family ends the reading with a failure |
| StoreKeys.TagsMerge | crates/common/src/manager/restore.rs:281-301 | A tag in its short and its long form is one class |
| StoreKeys.WrittenApart | crates/common/src/manager/backup.rs:979-1005 | Two classes as the backup writes them are one in the store only if their keys are equal |
| StoreKeys.ClassRestored | crates/store/src/write/key.rs:440-500 | A bitmap class of the store, dumped and restored, is written under the same key |
| Restore.Restorer.Flush | crates/common/src/manager/restore.rs:362-373 | A flush loses no write and starts the next batch in the context of the dump |
| Restore.Restorer.PushBitmap | crates/common/src/manager/restore.rs:327-343 | Every document of a bitmap gets its bit, with a flush between any two of them |
| Restore.Restorer.PushEntry | crates/common/src/manager/restore.rs:92-360 | An entry adds its writes under the context of the dump; the link of an email in an old file is also queued for indexing |
| Restore.Restorer.ApplyEntry | crates/common/src/manager/restore.rs:89-360 | A key and value add exactly their writes under the context and the file version of the dump, are skipped, or fail |
| Restore.Restorer.Apply | crates/common/src/manager/restore.rs:75-375 | One turn of the loop adds the writes of one operation, whether or not it flushes |
| Restore.QueueCountsUp | crates/common/src/manager/restore.rs:143-155 | The emails of a version 1 file are queued under numbers that count up without a gap |
| Restore.OlderFiles | crates/common/src/manager/restore.rs:113-155 | In a file of version 1 full-text entries and the tokens of emails write nothing, the link of an email also queues it, and all else is as in version 2 |
| Restore.RestoreFile | crates/common/src/manager/restore.rs:62-382 | For every file of any version the batches together hold each write once and in order, at the document the batch stands at; a failing dump leaves a prefix of them |
| Restore.PlacedOutcome | crates/common/src/manager/restore.rs:62-382 | Where no document-bound entry follows a bitmap without a document id between, every write is in the context of the dump |
| Restore.BitmapThenProperty | crates/common/src/manager/restore.rs:327-343 | A dump where one does: the property goes to the bitmap's last document |
| Backup.ContextSent | crates/common/src/manager/backup.rs:174-193 | The operations sent before a record move any reader to the record's context |
| Backup.DeltasMean | crates/common/src/manager/backup.rs:170-234 | A delta stream means its records, from any context both sides agree on |
| Backup.DeltasRestore | crates/common/src/manager/backup.rs:170-234 | Dumping and restoring properties, access rights, indexes or logs writes every record once, in order and in its context |
| Backup.BlobsRestore | crates/common/src/manager/backup.rs:387-476 | Links come back as links of their documents, other hashes with their content |
| Backup.BitmapsRestore | crates/common/src/manager/backup.rs:958-1019 | Every bit of every bitmap comes back, although a bitmap may be spread over batches |
| Backup.SendRecords | crates/common/src/manager/backup.rs:314-385 | The loop that compares with the context sent last emits the delta stream |
| Backup.BackupProperties | crates/common/src/manager/backup.rs:170-234 | The property loop, with the mailbox counters, emits the delta stream of its records |
| Backup.BackupBlobs | crates/common/src/manager/backup.rs:387-476 | The two loops emit the links first, then the contents that exist |
| Backup.BackupBitmaps | crates/common/src/manager/backup.rs:958-1019 | The nested loops emit each group's context and its bitmaps that exist |
| Backup.DumpAndRestore | crates/common/src/manager/restore.rs:62-382 | Writing a dump of a meaning and restoring the file gives the store that meaning |
| BackupStore.StoreHolds | crates/store/src/backend/rocksdb/write.rs:157-276 | Running writes to distinct keys on an empty store leaves their values and nothing else |
| BackupStore.SlotsApart | crates/common/src/manager/restore.rs:92-360 | Two entries, bitmaps aside, go to the same key of the store if and only if they are of one family and in one place: of a property key one byte counts, of an access right's four |
| BackupStore.RecordWrites | crates/common/src/manager/restore.rs:89-160 | Each record is written under its own key with its own value, counters by adding |
| BackupStore.StoreRestored | crates/common/src/manager/restore.rs:62-382 | Restoring the dump of records with distinct keys into an empty store leaves exactly those records |
| BackupStore.BitmapsRestored | crates/common/src/manager/restore.rs:273-343 | After a restore a document's bit of a class, as the store writes it, is set if and only if a dumped bitmap of that class has it |
| BackupStore.WrittenBit | crates/common/src/manager/backup.rs:979-1005 | For the classes a backup writes, a bitmap's bit is that of its own key |
| BackupStore.BlobsRestored | crates/common/src/manager/restore.rs:140-165 | After a restore a link is there if and only if it was dumped, and a blob is committed with its content if and only if it was unlinked and existed |
| BackupStore.CopyRecords | crates/common/src/manager/restore.rs:62-382 | Running the writer, the file and the restore: the batches leave exactly the records in an empty store |
| BackupStore.CopyProperties | crates/common/src/manager/restore.rs:62-382 | The same for properties: each has its value, each mailbox its counter of message ids, and there is nothing else |
| BackupStore.CopyBitmaps | crates/common/src/manager/restore.rs:62-382 | The same for the bits of bitmaps |
| BackupStore.CopyBlobs | crates/common/src/manager/restore.rs:62-382 | The same for links and contents of blobs |
| BackupFlat.OnePair | crates/common/src/manager/restore.rs:166-260 | A setting, lookup, directory or queue entry makes one write with the dumped value under what is kept of its key; lookup counters and used quotas are added, all else is set |
| BackupFlat.LebDigits | crates/utils/src/codec/leb128.rs:107-119 | Numbers are written seven bits at a time from the low end, the high bit marking all bytes but the last |
| BackupFlat.LebRoundTrip | crates/utils/src/codec/leb128.rs:137-151 | Such a number is read back |
| BackupFlat.StoreKeyKept | crates/store/src/write/key.rs:296-328 | Of a key as the store writes it the restore keeps everything |
| BackupFlat.PairsRestored | crates/common/src/manager/restore.rs:166-260 | Restoring the dump of such entries into an empty store leaves exactly their keys and values |
| BackupFlat.BackupQueue | crates/common/src/manager/backup.rs:703-782 | Messages and events are dumped under a leading byte each |
| BackupFlat.BackupDirectory | crates/common/src/manager/backup.rs:631-701 | All entries are dumped, then the used quotas of the principals among them that are not zero |
| BackupFlat.BackupLookup | crates/common/src/manager/backup.rs:525-629 | Values are dumped, then the counters that are not zero and do not count the messages of a mailbox |
| BackupFlat.OtherCountersOf | crates/common/src/manager/backup.rs:599-604 | Which counters those are |
| BackupFlat.CopyPairs | crates/common/src/manager/backup.rs:478-523 | Dumping and restoring settings leaves exactly them in an empty store |
| BackupFlat.CopyQueue | crates/common/src/manager/backup.rs:703-782 | The same for the queue |
| BackupFlat.CopyDirectory | crates/common/src/manager/backup.rs:631-701 | The same for the directory with the used quotas |
| BackupFlat.CopyLookup | crates/common/src/manager/backup.rs:525-629 | The same for lookup values and counters, two families in one file |
| ConcurrencyLimiter.StepBounded | crates/common/src/listener/limiter.rs:89-99 | Each atomic step keeps the counter equal to the live guards and the bound over guards and callers under way |
| ConcurrencyLimiter.GuardsBounded | crates/common/src/listener/limiter.rs:34-99 | If at most k calls overlap at any time, there are never more than the limit plus k less one guards; one at a time, never more than the limit |
| ConcurrencyLimiter.CallersLimit | crates/common/src/listener/limiter.rs:34-99 | With n callers under any interleaving the counter is the number of guards and at most the limit plus n less one |
| ConcurrencyLimiter.LimitReached | crates/common/src/listener/limiter.rs:89-99 | For every limit and number of callers there is a run that reaches that bound |
| ConcurrencyLimiter.KeepsLimitIff | crates/common/src/listener/limiter.rs:89-99 | Every run of n callers keeps to the limit if and only if n is at most one or the limit is zero |
| RateLimiter.Limiter.IsAllowed | crates/common/src/listener/limiter.rs:48-63 | A call passes while tokens are left or a refill is due, and takes a token |
| RateLimiter.Limiter.IsAllowedSoft | crates/common/src/listener/limiter.rs:65-68 | Predicts what a call at the same instant would be told |
| RateLimiter.BetweenRefills | crates/common/src/listener/limiter.rs:48-63 | From one refill to the next at most the allowed requests pass, and one if none are allowed |
| RateLimiter.SpanBound | crates/common/src/listener/limiter.rs:48-63 | Over every run with a clock that does not go back, at most twice the requests pass in any span of one period |
| RateLimiter.KeepsToRequestsIff | crates/common/src/listener/limiter.rs:48-63 | A span of one period keeps to the allowed requests in every run if and only if no refill falls due in it or no token is left at its start |
| RateLimiter.BoundReached | crates/common/src/listener/limiter.rs:48-63 | An idle limiter reaches that bound at one instant, for every rate |
| RateLimiter.ZeroPeriod | crates/common/src/listener/limiter.rs:41-63 | With a period of no whole second every call passes |
| SnowflakeBits.BitsAreId | crates/utils/src/snowflake.rs:78-81 | The shifts, masks and bitwise or on 64-bit words give the number of the id |
| SnowflakeBits.PastBitsAreId | crates/utils/src/snowflake.rs:65-72 | The shift of the past id likewise |
| Snowflake.Generator.Generate | crates/utils/src/snowflake.rs:75-82 | An id holds the millisecond, node and sequence number, which then moves on; before the epoch nothing changes |
| Snowflake.WrappedSequence | crates/utils/src/snowflake.rs:75-82 | The wrap of the 64-bit sequence counter does not show in the ids |
| Snowflake.Fields | crates/utils/src/snowflake.rs:19-23 | Two ids are equal if and only if all three fields agree |
| Snowflake.NodesApart | crates/utils/src/snowflake.rs:19-23 | Node ids that differ modulo 512 never give the same id |
| Snowflake.CollideIff | crates/utils/src/snowflake.rs:75-82 | Two calls of one generator collide if and only if they share the millisecond and are a multiple of 4096 calls apart |
| Snowflake.DistinctIff | crates/utils/src/snowflake.rs:75-82 | With a clock that does not go back and is below 2^43 milliseconds, all ids are distinct if and only if no millisecond has more than 4096 calls |
| Snowflake.GenerateAll | crates/utils/src/snowflake.rs:74-82 | A run of calls yields the ids of the sequence, which are distinct exactly under that condition |
| Snowflake.LaterLarger | crates/utils/src/snowflake.rs:75-82 | A later millisecond, below 2^43, gives a larger id, on any node |
| Snowflake.PastIdSeparates | crates/utils/src/snowflake.rs:65-72 | An id is at least the past id if and only if its millisecond is not before that moment's |

## Left out

- Roles.WalkCorrect: the directory does not change during a walk, and concurrent walks over one cache are not interleaved.
- RateLimiter.SpanBound: calls follow one another, and the token counter and the clock do not overflow 64 bits.
- ConcurrencyLimiter.CallersLimit: limit and callers together stay within 64 bits, as the counter wraps beyond that.
- MailboxTree.BuildMailboxTree: every mailbox has a name; the source aborts at the first one below a root that has none. It is called where the search ends, as `MailboxSearch.EndsIff` says.
- The character-level tokenizer of expressions: the model starts from tokens.
- Arithmetic, comparison, number and string conversion, regular expressions and function calls in expressions are arbitrary functions of the machine's environment; only truth values, the logical operators, indexing and captures are fixed.
- The parser's argument counters are unbounded integers, where the source uses 32-bit ones.
- Command names, tag validity and the commands that tokenize brackets are parameters of the receiver.
- Unicode case folding in glob patterns: characters are taken as already folded.
- Which values of a dump decode, and the serialized form of bitmaps, are parameters; so is the mailbox counter's serialization.
- A bitmap that holds the document id 2^32 - 1, which the store takes as a request to choose one.
- The storage back ends, the blob store, files, channels and tasks; a batch is a list of operations run in order.
- Memory ordering of the atomic operations: each is one indivisible step.
