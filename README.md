# CommandLineArgsHelper in Dafny

This is a model of the command-line argument parser `CommandLineArgsHelper`
and of its sample typed wrapper `MyCommandArgs`, with proofs about them.

The parser makes one left-to-right pass over the command-line tokens.
- It cuts each token with the splitter pattern `^-{1,2}|^\/|=|:`, into at
  most three pieces.
- It keeps at most one *pending* parameter name, a parameter still waiting
  for its value.
- It fills a dictionary in which the first binding of a name wins.
- Each value is stored after the cleaner pattern `^['"]?(.*?)['"]?$` has
  removed at most one leading and at most one trailing quote, each only when
  present; a value with a newline before its last character is stored
  unchanged.
- A parameter that never receives a value is a flag, bound to `"true"`.

The result is exposed as a read-only map, read through an indexer that
answers null for an unknown name.

The files:

- `wrappers.dfy` (`Wrappers`): `Option` and `Result`. A C# null is `None`,
  and a thrown exception is a `Failure`.
- `args_regex.dfy` (`ArgsRegex`): what the two patterns do.
  - `Split` is `Regex.Split(text, 3)`: the leftmost, non-overlapping matches,
    at most two cuts.
  - `Clean` is `Regex.Replace(value, "$1")` with the cleaner, including how
    .NET treats a newline: `.` does not match `\n`, and `$` also matches
    before a final `\n`.
- `args_regex_properties.dfy` (`ArgsRegexProperties`): lemmas about `Split`
  and `Clean`:
  - the pieces rejoin to the token;
  - the number of pieces;
  - the shapes `-name`, `--name`, `/name` and `prefix name sep value`;
  - quote removal.
- `command_line_args_helper.dfy` (`CommandLineArgsHelpers`):
  - the pass on values: `Bind`, `Step`, `Run`, `Parse`;
  - the class `CommandLineArgsHelper`, whose `ParseArgumentsHelper` is the
    source's loop over a mutable dictionary (`StringDictionary`), proved
    equal to `Parse`;
  - the indexer `Item`;
  - the extension helpers `AssertArgumentNotNull` and `GetValueOrDefault`.
- `parse_properties.dfy` (`ParseProperties`): what the pass promises:
  - a null or empty array gives an empty map;
  - an entry, once made, is never changed;
  - no key is empty;
  - every key is a name some token introduces, and every value is `"true"`
    or, cleaned, a token or its value piece;
  - what each kind of token does to the pending parameter;
  - the supported token forms, one by one.
- `parse_examples.dfy` (`ParseExamples`): worked command lines proved
  against `Parse`, plus the accessors of `MyCommandArgs` over them. Some
  come from the usage notes in `ParseArgumentsHelper` (lines 57-59); the
  others are small lines that show a single rule of the loop or of the
  accessors.
- `my_command_args.dfy` (`CommandLineArgsHelperConsoleApp`): `MyCommandArgs`
  and its accessors, over a helper whose `Parameters` are fixed.

Where the code does more than its comments at CommandLineArgsHelper.cs:55
(`((",')value(",'))`) and :84 ("Remove possible enclosing characters") say:

- The cleaner removes a quote at each end independently. The two need not
  match: `'abc"` becomes `abc`, and so does `'abc`. Two quotes at each end
  lose one each: `''x''` becomes `'x'`.
- The fallback of a three-piece token stores the whole token as the pending
  parameter's value, and that value is cleaned like every other value
  (`TryInitParamInDictionary` always cleans).
- A single token `prefix + name + sep + value` gives the one entry
  `name -> value` only when certain conditions hold (`ParseNameValue` states
  them):
  - the name holds no `=` or `:`;
  - the name is not empty;
  - after a single `-`, the name does not start with `-`.

  Otherwise the cuts fall elsewhere:
  - `-=v` gives nothing;
  - `-a=b=c` does not give the name `a=b` but the name `a` with the value `b=c`;
  - `--a=v` is not the prefix `-` with the name `-a` but the prefix `--` with the name `a`.

## Model

| member | source | states |
|---|---|---|
| ArgsRegex.MatchLength | CommandLineArgsHelper/CommandLineArgsHelper.cs:26 | the pattern's match at an index: at most 2 characters; 2 only for `--` at the start; after index 0 it matches exactly at a `=` or `:` and takes one character |
| ArgsRegex.NextMatch | CommandLineArgsHelper/CommandLineArgsHelper.cs:26 | the first index at or after `from` where the pattern matches, with no match before it; none exactly when no index from there on matches |
| ArgsRegex.Cuts | CommandLineArgsHelper/CommandLineArgsHelper.cs:64 | at most two cuts, each a match of the pattern, non-overlapping and in order, with no match before the first or between them, nor after a single cut |
| ArgsRegex.Split | CommandLineArgsHelper/CommandLineArgsHelper.cs:64 | between one and three pieces, one more than the number of cuts |
| ArgsRegex.Clean | CommandLineArgsHelper/CommandLineArgsHelper.cs:27 | the cleaned value is at most two characters shorter than the value and never longer |
| ArgsRegex.CleanLine | CommandLineArgsHelper/CommandLineArgsHelper.cs:27 | no contract of its own: the cleaner on a line without a newline, one optional quote off each end; it is the definition `Clean` and the lemmas `CleanUnquoted`, `CleanQuoted`, `CleanLeadingQuote` and `CleanTrailingQuote` are stated through |
| ArgsRegexProperties.NoMatchMeansNoSeparator | CommandLineArgsHelper/CommandLineArgsHelper.cs:26 | a stretch where the pattern never matches holds no `=` or `:` |
| ArgsRegexProperties.MatchText | CommandLineArgsHelper/CommandLineArgsHelper.cs:26 | a match is `=` or `:` anywhere, or `-`, `--` or `/` at index 0; a single `-` at the start is not followed by another `-` |
| ArgsRegexProperties.SplitRejoin | CommandLineArgsHelper/CommandLineArgsHelper.cs:64 | putting the removed delimiters back between the pieces gives the token again |
| ArgsRegexProperties.SplitDelimiters | CommandLineArgsHelper/CommandLineArgsHelper.cs:26 | only the first delimiter can be a prefix, and then the first piece is empty; every later delimiter is `=` or `:`; a `-` prefix leaves no `-` at the start of the name |
| ArgsRegexProperties.SplitLeftmost | CommandLineArgsHelper/CommandLineArgsHelper.cs:64 | every piece followed by a delimiter holds no separator, nor does the last piece when fewer than three pieces were made |
| ArgsRegexProperties.SplitPartCount | CommandLineArgsHelper/CommandLineArgsHelper.cs:64 | the number of pieces is one plus the number of matches in the whole token, capped at two |
| ArgsRegexProperties.PrefixIsFirstMatch | CommandLineArgsHelper/CommandLineArgsHelper.cs:26 | a token starting with `-`, `--` or `/` is first cut at index 0, the prefix taken whole |
| ArgsRegexProperties.SplitOnePiece | CommandLineArgsHelper/CommandLineArgsHelper.cs:69 | a token is one piece exactly when it has no separator and no prefix at its start, and that piece is the token itself |
| ArgsRegexProperties.SplitFlagShape | CommandLineArgsHelper/CommandLineArgsHelper.cs:75 | `prefix + name`, name without a separator, is the two pieces `""` and `name` |
| ArgsRegexProperties.SplitNameValueShape | CommandLineArgsHelper/CommandLineArgsHelper.cs:82 | `prefix + name + sep + value`, name without a separator, is the three pieces `""`, `name` and `value`, whatever the value holds |
| ArgsRegexProperties.SplitKeepsLaterSeparators | CommandLineArgsHelper/CommandLineArgsHelper.cs:58 | `/param3:"Test-:-work"` is cut only at its first `:`; the value keeps its own `-` and `:` |
| ArgsRegexProperties.SplitWithoutPrefix | CommandLineArgsHelper/CommandLineArgsHelper.cs:26 | `a=b` is `a` and `b`: a separator cuts without a prefix |
| ArgsRegexProperties.SplitUrl | CommandLineArgsHelper/CommandLineArgsHelper.cs:26 | `http://x` is `http` and `//x`: a `/` that is not at the start does not cut |
| ArgsRegexProperties.CleanUnquoted | CommandLineArgsHelper/CommandLineArgsHelper.cs:27 | a value with no newline and no quote at either end is unchanged |
| ArgsRegexProperties.CleanQuoted | CommandLineArgsHelper/CommandLineArgsHelper.cs:27 | one quote at each end, of either kind and not necessarily the same kind, is removed |
| ArgsRegexProperties.CleanLeadingQuote | CommandLineArgsHelper/CommandLineArgsHelper.cs:27 | a leading quote alone is removed |
| ArgsRegexProperties.CleanTrailingQuote | CommandLineArgsHelper/CommandLineArgsHelper.cs:27 | a trailing quote alone is removed |
| ArgsRegexProperties.CleanKeepsFinalNewline | CommandLineArgsHelper/CommandLineArgsHelper.cs:27 | a final newline is kept after the cleaned line |
| ArgsRegexProperties.CleanSkipsInnerNewline | CommandLineArgsHelper/CommandLineArgsHelper.cs:27 | a value with a newline before its last character does not match and is unchanged |
| ArgsRegexProperties.CleanExamples | CommandLineArgsHelper/CommandLineArgsHelper.cs:27 | `'400'` gives `400`, `'abc"` gives `abc`, `''x''` gives `'x'`, a lone `"` gives the empty string, `true` stays `true` |
| CommandLineArgsHelpers.Bind | CommandLineArgsHelper/CommandLineArgsHelper.cs:108-118 | the keys grow by the parameter exactly when it is not null, not empty and not yet a key; existing entries never change; the new entry holds the cleaned value |
| CommandLineArgsHelpers.CanBind | CommandLineArgsHelper/CommandLineArgsHelper.cs:111 | no contract of its own: the guard of TryInitParamInDictionary, a parameter that is not null, not empty and not yet a key; `Bind` and `TryInitParamInDictionary` are specified through it |
| CommandLineArgsHelpers.Step | CommandLineArgsHelper/CommandLineArgsHelper.cs:64-98 | no contract of its own: one iteration of the loop on values, the definition the loop invariant of `ParseArgumentsHelper` and the lemmas `StepExtends`, `StepFromTokens` and the `Step...` lemmas of `ParseProperties` are proved against |
| CommandLineArgsHelpers.Run | CommandLineArgsHelper/CommandLineArgsHelper.cs:60-99 | no contract of its own: the loop on values, `Step` from the initial state over the tokens in order; `ParseArgumentsHelper`'s invariant and `RunExtends`, `RunHasNoEmptyName`, `RunFromTokens` and `RunTrace` are proved against it |
| CommandLineArgsHelpers.Parse | CommandLineArgsHelper/CommandLineArgsHelper.cs:44-106 | no contract of its own: ParseArgumentsHelper on values, the definition the method `ParseArgumentsHelper` is proved equal to and the `Parse...` lemmas and the examples are stated through |
| CommandLineArgsHelpers.StringDictionary.constructor | CommandLineArgsHelper/CommandLineArgsHelper.cs:47 | the dictionary starts empty |
| CommandLineArgsHelpers.StringDictionary.Add | CommandLineArgsHelper/CommandLineArgsHelper.cs:114 | adds one entry for a key not yet present |
| CommandLineArgsHelpers.CommandLineArgsHelper.constructor | CommandLineArgsHelper/CommandLineArgsHelper.cs:37-41 | the parameters are the parse of the token array |
| CommandLineArgsHelpers.CommandLineArgsHelper.ParseArgumentsHelper | CommandLineArgsHelper/CommandLineArgsHelper.cs:44-106 | the loop over the tokens, updating a dictionary in place, returns exactly `Parse` of the array; its invariant is that after i tokens the dictionary and the pending name are `Run` of the first i tokens |
| CommandLineArgsHelpers.CommandLineArgsHelper.TryInitParamInDictionary | CommandLineArgsHelper/CommandLineArgsHelper.cs:108-118 | reports true exactly when the parameter is not null, not empty and not yet a key; the dictionary becomes `Bind` of the old one |
| CommandLineArgsHelpers.CommandLineArgsHelper.Item | CommandLineArgsHelper/CommandLineArgsHelper.cs:125 | the value bound to the name, or null exactly when the name is not a key |
| CommandLineArgsHelpers.AssertArgumentNotNull | CommandLineArgsHelper/CommandLineArgsHelper.cs:138-146 | the argument itself when it is not null; otherwise an ArgumentNullException naming the argument, with no message |
| CommandLineArgsHelpers.GetValueOrDefault | CommandLineArgsHelper/CommandLineArgsHelper.cs:158-165 | the value bound to the key when it is present, the default otherwise |
| ParseProperties.ParseEmpty | CommandLineArgsHelper/CommandLineArgsHelper.cs:47-50 | a null array and an empty array both give the empty map |
| ParseProperties.RunStep | CommandLineArgsHelper/CommandLineArgsHelper.cs:60 | the state after i + 1 tokens is one iteration from the state after i |
| ParseProperties.StepExtends | CommandLineArgsHelper/CommandLineArgsHelper.cs:111 | one token never removes or changes an entry, and never adds the empty key |
| ParseProperties.RunExtends | CommandLineArgsHelper/CommandLineArgsHelper.cs:111 | the entries after any prefix of the tokens survive, unchanged, to the end of the loop |
| ParseProperties.FirstBindingWins | CommandLineArgsHelper/CommandLineArgsHelper.cs:111 | a name bound after some prefix of the tokens has that same value in the final map |
| ParseProperties.RunHasNoEmptyName | CommandLineArgsHelper/CommandLineArgsHelper.cs:111 | the loop never binds the empty name |
| ParseProperties.ParseHasNoEmptyName | CommandLineArgsHelper/CommandLineArgsHelper.cs:111 | no key of the final map is empty |
| ParseProperties.BindFromTokens | CommandLineArgsHelper/CommandLineArgsHelper.cs:108-118 | binding a name from the tokens to a token's value or to `"true"` keeps every key a name from the tokens and every value from the tokens or `"true"` |
| ParseProperties.StepFromTokens | CommandLineArgsHelper/CommandLineArgsHelper.cs:64-97 | one iteration keeps every key, the pending name and every value drawn from the tokens |
| ParseProperties.FromMoreTokens | CommandLineArgsHelper/CommandLineArgsHelper.cs:60 | what is drawn from some tokens is drawn from those tokens and more |
| ParseProperties.RunFromTokens | CommandLineArgsHelper/CommandLineArgsHelper.cs:60-99 | after the loop every key and the pending name are names a token introduces, every value is `"true"` or a token's value, cleaned |
| ParseProperties.ParseFromTokens | CommandLineArgsHelper/CommandLineArgsHelper.cs:44-106 | every key of the result is a name some token introduces, and every value is `"true"` or, cleaned, a whole token or the value piece of a token |
| ParseProperties.PendingAfterToken | CommandLineArgsHelper/CommandLineArgsHelper.cs:67-97 | after a token the pending name is that token's name when it has two pieces, and nothing otherwise |
| ParseProperties.BareTokenWithoutPending | CommandLineArgsHelper/CommandLineArgsHelper.cs:69-73 | a one-piece token with nothing pending is dropped: it changes no entry |
| ParseProperties.FlagThenValue | CommandLineArgsHelper/CommandLineArgsHelper.cs:69-80 | a parameter alone followed by a one-piece token gets that token, cleaned, as its value |
| ParseProperties.FlagThenFlag | CommandLineArgsHelper/CommandLineArgsHelper.cs:75-80 | a parameter alone followed by another parameter alone is `"true"` |
| ParseProperties.FlagAtEnd | CommandLineArgsHelper/CommandLineArgsHelper.cs:101-102 | a parameter alone as the last token is `"true"` |
| ParseProperties.DirectBind | CommandLineArgsHelper/CommandLineArgsHelper.cs:82-97 | a three-piece token with a fresh, non-empty name binds that name to its value piece, cleaned, and leaves nothing pending |
| ParseProperties.DirectBindEndsPending | CommandLineArgsHelper/CommandLineArgsHelper.cs:91-95 | after a direct bind the parameter that was pending is bound: to `"true"`, or to what it already had |
| ParseProperties.BindThenFlag | CommandLineArgsHelper/CommandLineArgsHelper.cs:85-95 | binding a fresh name and then a pending one as a flag leaves the pending one bound to its old value, to the new one when it is the same name, or to `"true"` |
| ParseProperties.FallbackBind | CommandLineArgsHelper/CommandLineArgsHelper.cs:85-90 | a three-piece token whose name is empty or taken becomes, whole and cleaned, the pending parameter's value, or changes nothing when no parameter can be bound |
| ParseProperties.StepNameValue | CommandLineArgsHelper/CommandLineArgsHelper.cs:82-97 | with nothing pending, a three-piece token with a fresh name adds exactly that name with its value piece cleaned |
| ParseProperties.StepParameter | CommandLineArgsHelper/CommandLineArgsHelper.cs:75-80 | with nothing pending, a two-piece token adds nothing and makes its name pending |
| ParseProperties.StepValue | CommandLineArgsHelper/CommandLineArgsHelper.cs:69-73 | a one-piece token adds exactly the pending parameter with the whole token cleaned |
| ParseProperties.StepFlagThenParameter | CommandLineArgsHelper/CommandLineArgsHelper.cs:75-80 | a two-piece token adds exactly the pending parameter as `"true"` and makes its own name pending |
| ParseProperties.StepNameValueThenFlag | CommandLineArgsHelper/CommandLineArgsHelper.cs:85-96 | a three-piece token with a fresh name adds that name, then the pending parameter as `"true"`, and leaves nothing pending |
| ParseProperties.ParseRepeatedName | CommandLineArgsHelper/CommandLineArgsHelper.cs:85-89 | the same name given twice with a value keeps the first value only |
| ParseProperties.ParseEmptyNameIsValue | CommandLineArgsHelper/CommandLineArgsHelper.cs:85-89 | a parameter alone, then a three-piece token with an empty name: the whole second token, cleaned, is the value |
| ParseProperties.ParseFlagThenParameterValue | CommandLineArgsHelper/CommandLineArgsHelper.cs:69-80 | two parameters alone, then a one-piece token: the first is `"true"`, the second takes the token, cleaned; nothing else is bound |
| ParseProperties.ParseNameValue | CommandLineArgsHelper/CommandLineArgsHelper.cs:82-97 | a single token `prefix + name + sep + value` gives exactly the one entry name -> value, cleaned |
| ParseProperties.ParseQuotedValue | CommandLineArgsHelper/CommandLineArgsHelper.cs:113 | a single token with a quoted value gives exactly name -> the value without its quotes |
| ParseProperties.ParseUnquotedValue | CommandLineArgsHelper/CommandLineArgsHelper.cs:113 | a single token whose value has no quote at either end gives exactly name -> the value unchanged |
| ParseProperties.ParseFlagValue | CommandLineArgsHelper/CommandLineArgsHelper.cs:69-80 | `prefix + name` followed by a bare token gives exactly name -> that token, cleaned |
| ParseProperties.ParseFlag | CommandLineArgsHelper/CommandLineArgsHelper.cs:101-102 | `prefix + name` alone gives exactly name -> `"true"` |
| ParseProperties.RunSnoc | CommandLineArgsHelper/CommandLineArgsHelper.cs:60 | the loop over the tokens and then one more is one iteration after the loop over the tokens |
| ParseProperties.RunAlongTrace | CommandLineArgsHelper/CommandLineArgsHelper.cs:60-99 | given the state before each token, each one iteration from the one before, the loop's state after the first i tokens is the i-th of them |
| ParseProperties.RunTrace | CommandLineArgsHelper/CommandLineArgsHelper.cs:60-99 | given such a list of states, the loop ends in the last one |
| ParseProperties.StepNameValueToken | CommandLineArgsHelper/CommandLineArgsHelper.cs:82-97 | with nothing pending, a token `prefix + name + sep + value` with a fresh name adds exactly name -> the value, cleaned, and leaves nothing pending |
| ParseProperties.StepNameValueTokenThenFlag | CommandLineArgsHelper/CommandLineArgsHelper.cs:85-96 | a token `prefix + name + sep + value` with a fresh name adds name -> the value, cleaned, then the pending parameter as `"true"`, and leaves nothing pending |
| ParseProperties.StepParameterToken | CommandLineArgsHelper/CommandLineArgsHelper.cs:75-80 | with nothing pending, a token `prefix + name` adds nothing and makes the name pending |
| ParseProperties.StepFlagThenParameterToken | CommandLineArgsHelper/CommandLineArgsHelper.cs:75-80 | a token `prefix + name` adds exactly the pending parameter as `"true"` and makes the name pending |
| ParseProperties.StepValueToken | CommandLineArgsHelper/CommandLineArgsHelper.cs:69-73 | a bare token adds exactly the pending parameter with the token, cleaned, and leaves nothing pending |
| ParseProperties.StepQuotedValueToken | CommandLineArgsHelper/CommandLineArgsHelper.cs:82-97 | with nothing pending, a fresh name with a quoted value adds exactly name -> the value without its quotes |
| ParseProperties.StepUnquotedValueToken | CommandLineArgsHelper/CommandLineArgsHelper.cs:82-97 | with nothing pending, a fresh name with a value that has no quote at either end adds exactly name -> the value unchanged |
| ParseProperties.StepQuotedValueTokenThenFlag | CommandLineArgsHelper/CommandLineArgsHelper.cs:85-96 | a fresh name with a quoted value adds name -> the value without its quotes, then the pending parameter as `"true"` |
| ParseProperties.StepUnquotedToken | CommandLineArgsHelper/CommandLineArgsHelper.cs:69-73 | a bare token with no quote at either end adds exactly the pending parameter with the token unchanged |
| ParseExamples.DuplicateNameIgnored | CommandLineArgsHelper/CommandLineArgsHelper.cs:85-89 | `-a=1 -a=2` gives only `a = 1` |
| ParseExamples.LoneFlag | CommandLineArgsHelper/CommandLineArgsHelper.cs:102 | `-debug` gives only `debug = true` |
| ParseExamples.QuotedValue | CommandLineArgsHelper/CommandLineArgsHelper.cs:57 | `/day:"happy birthday"` gives only `day = happy birthday` |
| ParseExamples.LaterSeparatorsInValue | CommandLineArgsHelper/CommandLineArgsHelper.cs:58 | `/param3:"Test-:-work"` gives only `param3 = Test-:-work`: the value keeps its later `-` and `:` |
| ParseExamples.DashesInValue | CommandLineArgsHelper/CommandLineArgsHelper.cs:59 | `/param4=--value4--` gives only `param4 = --value4--` |
| ParseExamples.SplitParam5 | CommandLineArgsHelper/CommandLineArgsHelper.cs:59 | `-param5` is the pieces `""` and `param5` |
| ParseExamples.SplitNice | CommandLineArgsHelper/CommandLineArgsHelper.cs:59 | `--=nice=--` is the pieces `""`, `""` and `nice=--`: an empty name, and a value that keeps its `=` |
| ParseExamples.EmptyNameFallsBack | CommandLineArgsHelper/CommandLineArgsHelper.cs:59 | `-param5 "--=nice=--"` gives only `param5 = --=nice=--`, the whole second token |
| ParseExamples.SplitDebug | CommandLineArgsHelper/CommandLineArgsHelper.cs:58 | `--debug` is the pieces `""` and `debug`: the double dash is one match |
| ParseExamples.SplitParam1 | CommandLineArgsHelper/CommandLineArgsHelper.cs:58 | `-param1` is the pieces `""` and `param1` |
| ParseExamples.Value1 | CommandLineArgsHelper/CommandLineArgsHelper.cs:58 | `value1` is one piece and is unchanged by cleaning |
| ParseExamples.FlagThenSeparateValue | CommandLineArgsHelper/CommandLineArgsHelper.cs:58 | `--debug -param1 value1` gives only `debug = true` and `param1 = value1` |
| ParseExamples.MissingSize | CommandLineArgsHelper.ConsoleApp/MyCommandArgs.cs:18-23 | over `-debug`, `Size` fails with the exception naming `size` and its message, `Height` is the empty string and `Debug` is true |
| ParseExamples.DebugIgnoresCase | CommandLineArgsHelper.ConsoleApp/MyCommandArgs.cs:23 | `debug = True` reads as true |
| CommandLineArgsHelperConsoleApp.EqualsIgnoreCase | CommandLineArgsHelper.ConsoleApp/MyCommandArgs.cs:23 | no contract of its own: the case-insensitive string comparison, letter by letter; `EqualsTrueIgnoringCase` and the accessor `Debug` are proved against it |
| CommandLineArgsHelperConsoleApp.EqualsTrueIgnoringCase | CommandLineArgsHelper.ConsoleApp/MyCommandArgs.cs:23 | comparing with `true`, ignoring case, accepts exactly the sixteen upper/lower-case spellings of `true` |
| CommandLineArgsHelperConsoleApp.MyCommandArgs.New | CommandLineArgsHelper.ConsoleApp/MyCommandArgs.cs:13-16 | succeeds, holding the helper, exactly when the helper is not null; otherwise an ArgumentNullException for `args` with its message |
| CommandLineArgsHelperConsoleApp.MyCommandArgs.Size | CommandLineArgsHelper.ConsoleApp/MyCommandArgs.cs:18 | the value of `size` when it is a key; otherwise an ArgumentNullException naming `size` with its message |
| CommandLineArgsHelperConsoleApp.MyCommandArgs.Height | CommandLineArgsHelper.ConsoleApp/MyCommandArgs.cs:19 | the value of `height`, or the empty string when it is not a key |
| CommandLineArgsHelperConsoleApp.MyCommandArgs.Day | CommandLineArgsHelper.ConsoleApp/MyCommandArgs.cs:20 | the value of `day`, or null exactly when it is not a key |
| CommandLineArgsHelperConsoleApp.MyCommandArgs.Tgif | CommandLineArgsHelper.ConsoleApp/MyCommandArgs.cs:21 | the value of `tgif` when it is a key; otherwise an ArgumentNullException naming `tgif`, with no message |
| CommandLineArgsHelperConsoleApp.MyCommandArgs.AmINice | CommandLineArgsHelper.ConsoleApp/MyCommandArgs.cs:22 | the value of `AmINice`, or null exactly when it is not a key |
| CommandLineArgsHelperConsoleApp.MyCommandArgs.Debug | CommandLineArgsHelper.ConsoleApp/MyCommandArgs.cs:23 | true exactly when `debug` is bound to a spelling of `true` in any case; false when it is absent |
| CommandLineArgsHelperConsoleApp.MyCommandArgs.Param1 | CommandLineArgsHelper.ConsoleApp/MyCommandArgs.cs:24 | the value of `param1`, or null exactly when it is not a key |
| CommandLineArgsHelperConsoleApp.MyCommandArgs.Param2Alone | CommandLineArgsHelper.ConsoleApp/MyCommandArgs.cs:25 | the value of `param2Alone`, or null exactly when it is not a key |
| CommandLineArgsHelperConsoleApp.MyCommandArgs.Param3 | CommandLineArgsHelper.ConsoleApp/MyCommandArgs.cs:26 | the value of `param3`, or null exactly when it is not a key |
| CommandLineArgsHelperConsoleApp.MyCommandArgs.Param4 | CommandLineArgsHelper.ConsoleApp/MyCommandArgs.cs:27 | the value of `param4`, or null exactly when it is not a key |
| CommandLineArgsHelperConsoleApp.MyCommandArgs.Param6WithSpaces | CommandLineArgsHelper.ConsoleApp/MyCommandArgs.cs:28 | the value of the key `param 6 with spaces`, or null exactly when it is not a key |

## Left out

- The parameterless constructor, which parses `Environment.GetCommandLineArgs()`: it reads the process's command line. The constructor taking an array is modelled.
- The `ReadOnlyDictionary` wrapper and the thread-safety remarks: `Parameters` is an immutable Dafny map, so the model gives read-only access by construction and has no concurrency.
- Enumeration order of the dictionary: a Dafny map has none.
- Null tokens inside the array, and a null key passed to the indexer or to `GetValueOrDefault`: a Dafny string cannot be null. For the same reason the null checks of the dictionary and the key in `GetValueOrDefault` cannot fail here.
- `RegexOptions.IgnoreCase` and `RegexOptions.Compiled` on both patterns: neither pattern contains a letter, so the options change nothing that is modelled.
- `ParseArgumentsHelper` and `TryInitParamInDictionary` are instance methods in the source. Here they are static, because they use no state of the instance.
- Exceptions are values: `AssertArgumentNotNull`, `MyCommandArgs.New`, `Size` and `Tgif` return a `Failure` carrying the `ArgumentNullException` they would throw.
- CommandLineArgsHelperConsoleApp.MyCommandArgs.Debug: the case-insensitive comparison folds ASCII letters only, where .NET's ordinal comparison folds by Unicode upper case.
- The usage notes of `ParseArgumentsHelper` (CommandLineArgsHelper.cs:57-58) as one long command line: it is not proved as a single example. Each of its tokens has the form of one of the `Step...Token` lemmas, whose preconditions it meets. `FlagThenSeparateValue` proves its three tokens `--debug -param1 value1`, and `QuotedValue` and `LaterSeparatorsInValue` prove its quoted parameters.
- The console demo programs (`Program.cs`), their output and the JSON rendering of the result: they only read the parsed map.
