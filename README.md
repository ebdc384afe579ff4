# Shiruka API core, modelled in Dafny

This project models the sequential core of the Shiruka server API (Java) and proves what that code promises. The core has four parts.

- **Command toolkit.** This is Brigadier-style command parsing:
  - the cursor-based `TextReader` lexer;
  - text ranges, suggestions and suggestion lists;
  - the string and integer argument types;
  - the command tree (`CommandNodeEnvelope`, `LiteralNode`, `ArgumentNode`);
  - the `CommandContextBuilder`;
  - the `CommandDispatcher`, which parses, executes, registers, finds nodes and renders usage.
- **Codecs.** These are the `Version` parser, order and renderer (Semantic Versioning 2.0.0, sections 9 to 11) and the ZigZag and base-128 varint codec of `VarInts`.
- **Small stateful containers.** These are `GameRuleMap`, `Int2ObjectBiMap`, `MetadataStoreBase` and `ListTagBasic`.
- **Validators and serialisers.** These are `PluginDescriptionFile.init`, `ImageData`, `ChatColor`, `PermissionDefault`, `CommandSyntaxException`, `CommandResult` and `ServerDescription.toPacket`.

Each Java file is one Dafny module in one file. Three shared modules sit beside them:

- `Wrappers`: option and result values.
- `JavaText`: the parts of the Java platform the code leans on, such as 32-bit `int` arithmetic, `Integer.parseInt`, `String.compareTo` and `Character.isWhitespace`, with characters standing for the UTF-16 chars of text inside the Basic Multilingual Plane.
- `Sorting`: a stable insertion sort standing for the library sorts.

`Version` has five companion modules: `VersionOrder`, `VersionGrammar`, `VersionScan`, `VersionRoundTrip` and `VersionFindings`. `VersionGrammar` and `VersionRoundTrip` together prove that the corrected parser and `toString` are inverse to each other on well-formed versions.

The model follows the form of the source.

- **Objects whose fields change in place are classes.** These are `TextReader`, `CommandContextBuilder`, the command graph, the dispatcher, the version `Parser`, the maps and the list tag. Their methods carry `modifies` clauses.
- **Loops are methods with invariants.** Each method is proved against a function of the inputs or of the old state. The properties the code promises are proved about those functions as lemmas.
- **Pure code is functions.** This covers the value classes and the recursive usage renderers.

Command nodes refer to one another by id: a `CommandGraph` maps ids to node fields. Operations on one node can therefore change another, as they do on the Java objects.

Where the code departs from what its authors evidently meant, the operations keep the code's behaviour as written. A corrected definition stands beside each one, and "## Findings" names both.

## Model

| member | source | states |
|---|---|---|
| TextRange.At | src/main/java/net/shiruka/api/command/TextRange.java:64-66 | `at(position)` is an empty range starting and ending at the position |
| TextRange.Between | src/main/java/net/shiruka/api/command/TextRange.java:77-79 | `between(start, end)` keeps both ends and is empty exactly when they are equal |
| TextRange.Encompassing | src/main/java/net/shiruka/api/command/TextRange.java:90-92 | the encompassing range starts at one of the two starts, no later than either, and ends at one of the two ends, no earlier than either |
| TextRange.EncompassingCommutative | src/main/java/net/shiruka/api/command/TextRange.java:90-92 | `encompassing(a, b)` equals `encompassing(b, a)` |
| TextRange.EncompassingAssociative | src/main/java/net/shiruka/api/command/TextRange.java:90-92 | encompassing three ranges does not depend on the grouping |
| TextRange.EncompassingSelf | src/main/java/net/shiruka/api/command/TextRange.java:90-92 | a range encompassing itself is itself |
| TextRange.Get | src/main/java/net/shiruka/api/command/TextRange.java:102-104 | `get(text)` has length end - start and holds the characters of the text from start on |
| TextRange.IsEmptyIff | src/main/java/net/shiruka/api/command/TextRange.java:141-143 | `isEmpty()` holds exactly when start equals end: the range is the empty range `at` its start, and it selects no text |
| TextReader.UnquotedAt | src/main/java/io/github/shiruka/api/command/TextReader.java:445-451 | `readUnquotedText` always succeeds with the text from the cursor to the new cursor, all of it unquoted-text characters, and stops before the first character that is not one |
| TextReader.BooleanAt | src/main/java/io/github/shiruka/api/command/TextReader.java:239-253 | `readBoolean` succeeds only on the word "true" or "false", with the matching value; an empty word is `READER_EXPECTED_BOOL`; any other word is `READER_INVALID_BOOL` with that word and the cursor put back |
| TextReader.IntAt | src/main/java/io/github/shiruka/api/command/TextReader.java:334-349 | `readInt` reads the longest run of integer characters and succeeds with its value exactly when `Integer.parseInt` accepts it; no such character is `READER_EXPECTED_INT`; a run that does not parse is `READER_INVALID_INT` with the cursor put back |
| TextReader.LongAt | src/main/java/io/github/shiruka/api/command/TextReader.java:358-373 | `readLong` as `readInt`, with the range of a `long` and the `long` error kinds |
| TextReader.PrependAll | src/main/java/io/github/shiruka/api/command/TextReader.java:479-501 | prepending a prefix to a closed quoted body prefixes its value and keeps its end; errors are kept |
| TextReader.PrependAllSnoc | src/main/java/io/github/shiruka/api/command/TextReader.java:479-501 | prepending a prefix and then one more character equals prepending the longer prefix |
| TextReader.QuotedFrom | src/main/java/io/github/shiruka/api/command/TextReader.java:479-501 | `readTextUntil` stops just after the terminator; an escape is refused only when the escaped character is neither the terminator nor a backslash, and the error names that character |
| TextReader.QuotedFromStep | src/main/java/io/github/shiruka/api/command/TextReader.java:479-501 | one step of the scan: a plain character is kept, an escaped terminator or backslash is kept without its backslash |
| TextReader.QuotedResult | src/main/java/io/github/shiruka/api/command/TextReader.java:479-501 | the result of `readTextUntil` on the scan's outcome leaves the cursor within the text |
| TextReader.QuotedTextAt | src/main/java/io/github/shiruka/api/command/TextReader.java:383-393 | `readQuotedText` gives "" at the end of input and `READER_EXPECTED_START_OF_QUOTE` unless a quote opens; an unclosed quote (`READER_EXPECTED_END_OF_QUOTE`) leaves the cursor at the end, and `READER_INVALID_ESCAPE` names the character after a backslash |
| TextReader.TextAt | src/main/java/io/github/shiruka/api/command/TextReader.java:427-437 | `readText` is `readQuotedText` at the end or at a quote, `readUnquotedText` otherwise |
| TextReader.TextReader.constructor | src/main/java/io/github/shiruka/api/command/TextReader.java:76-78 | a new reader is over the text with its cursor at 0 |
| TextReader.TextReader.Copy | src/main/java/io/github/shiruka/api/command/TextReader.java:66-69 | the copy has the same text and cursor |
| TextReader.TextReader.GetRemaining | src/main/java/io/github/shiruka/api/command/TextReader.java:171-173 | the remaining text is what follows the cursor |
| TextReader.TextReader.CanRead | src/main/java/io/github/shiruka/api/command/TextReader.java:143-145 | `canRead(length)` holds exactly when at least `length` characters remain |
| TextReader.TextReader.Peek | src/main/java/io/github/shiruka/api/command/TextReader.java:208-210 | `peek()` is the first remaining character |
| TextReader.TextReader.SetCursor | src/main/java/io/github/shiruka/api/command/TextReader.java:161-163 | the cursor is set |
| TextReader.TextReader.Skip | src/main/java/io/github/shiruka/api/command/TextReader.java:456-458 | the cursor moves by one |
| TextReader.TextReader.ReadChar | src/main/java/io/github/shiruka/api/command/TextReader.java:228-230 | `read()` returns the character at the cursor and moves past it |
| TextReader.TextReader.SkipWhile | src/main/java/io/github/shiruka/api/command/TextReader.java:445-451 | the cursor moves past the longest run of allowed characters |
| TextReader.TextReader.SkipWhitespace | src/main/java/io/github/shiruka/api/command/TextReader.java:463-467 | the cursor moves past the longest run of whitespace |
| TextReader.TextReader.ReadUnquotedText | src/main/java/io/github/shiruka/api/command/TextReader.java:445-451 | the method's value and new cursor are those of `UnquotedAt` |
| TextReader.TextReader.ReadBoolean | src/main/java/io/github/shiruka/api/command/TextReader.java:239-253 | the method's result and new cursor are those of `BooleanAt` |
| TextReader.TextReader.ReadInt | src/main/java/io/github/shiruka/api/command/TextReader.java:334-349 | the method's result and new cursor are those of `IntAt` |
| TextReader.TextReader.ReadLong | src/main/java/io/github/shiruka/api/command/TextReader.java:358-373 | the method's result and new cursor are those of `LongAt` |
| TextReader.TextReader.ReadTextUntil | src/main/java/io/github/shiruka/api/command/TextReader.java:479-501 | the loop's result and new cursor are those of `QuotedFrom` |
| TextReader.TextReader.ReadQuotedText | src/main/java/io/github/shiruka/api/command/TextReader.java:383-393 | the method's result and new cursor are those of `QuotedTextAt` |
| TextReader.TextReader.ReadText | src/main/java/io/github/shiruka/api/command/TextReader.java:427-437 | the method's result and new cursor are those of `TextAt` |
| CommandSyntaxException.WithContext | src/main/java/net/shiruka/api/command/exceptions/CommandSyntaxException.java:73-80 | an exception with input and cursor keeps its kind, input and cursor, and its raw message is the kind's message |
| CommandSyntaxException.WithoutContext | src/main/java/net/shiruka/api/command/exceptions/CommandSyntaxException.java:88-90 | an exception without input has no context, and its message is the raw message alone |
| CommandSyntaxException.ClampedCursor | src/main/java/net/shiruka/api/command/exceptions/CommandSyntaxException.java:98-110 | `Math.min(input.length(), cursor)` is within the input and no later than the cursor |
| CommandSyntaxException.GetContext | src/main/java/net/shiruka/api/command/exceptions/CommandSyntaxException.java:98-110 | no context without input or with a negative cursor; otherwise the input up to the clamped cursor, cut to its last 10 characters behind "..." when longer |
| CommandSyntaxException.GetMessage | src/main/java/net/shiruka/api/command/exceptions/CommandSyntaxException.java:137-144 | the message is the raw message, followed by " at position N: " and the context when there is one; it always begins with the raw message |
| CommandSyntaxException.GetRawMessage | src/main/java/net/shiruka/api/command/exceptions/CommandSyntaxException.java:152-154 | the raw message is the message given at construction, without position or context |
| Suggestion.IntegerSuggestion | src/main/java/net/shiruka/api/command/suggestion/IntegerSuggestion.java:60-63 | an integer suggestion keeps the range, tooltip and value, and its text is the value's decimal text |
| Suggestion.Apply | src/main/java/net/shiruka/api/command/suggestion/Suggestion.java:112-125 | applying a suggestion keeps the input before its range, puts its text in the range and keeps the input after the range; a range over the whole input gives the text alone |
| Suggestion.ApplySplice | src/main/java/net/shiruka/api/command/suggestion/Suggestion.java:112-125 | within the input, `apply` is the splice `input[..start] + text + input[end..]` |
| Suggestion.CompareTo | src/main/java/net/shiruka/api/command/suggestion/IntegerSuggestion.java:66-71 | two integer suggestions compare by value, equal exactly when their values are; any other pair compares by text with `String.compareTo`, equal exactly when the texts are |
| Suggestion.CompareToIgnoreCase | src/main/java/net/shiruka/api/command/suggestion/IntegerSuggestion.java:73-76 | an integer suggestion compares as its `compareTo` does (by value against an integer suggestion, by text with case otherwise); a plain one compares by its lower-cased text with `String.compareTo`, equal exactly when the lower-cased texts are |
| Suggestion.Expand | src/main/java/net/shiruka/api/command/suggestion/Suggestion.java:152-165 | the expanded suggestion takes the wider range and keeps the tooltip; its text is the command's characters before the old range, the text, and those after it; only the suggestion's own range object (`TextRange` has no `equals`) gives the suggestion back, any other range gives a plain suggestion without an integer value |
| Suggestion.ExpandEqualRange | src/main/java/net/shiruka/api/command/suggestion/Suggestion.java:152-165 | a range object with the same ends that is not the suggestion's own gives the suggestion's plain form |
| Suggestion.ExpandPreservesApply | src/main/java/net/shiruka/api/command/suggestion/Suggestion.java:152-165 | expanding to a wider range within the command does not change the result of applying it to the command |
| Suggestions.MinStart | src/main/java/net/shiruka/api/command/suggestion/Suggestions.java:96-114 | the loop's start is the least start of the suggestions, or `Integer.MAX_VALUE` when there are none |
| Suggestions.MaxEnd | src/main/java/net/shiruka/api/command/suggestion/Suggestions.java:96-114 | the loop's end is the greatest end of the suggestions, or `Integer.MIN_VALUE` when there are none |
| Suggestions.UniformPreorder | src/main/java/net/shiruka/api/command/suggestion/Suggestions.java:96-114 | among integer suggestions alone, or plain ones alone, `compareToIgnoreCase` is a total and transitive order; among integer ones it is the order of their values |
| Suggestions.MixedNotTransitive | src/main/java/net/shiruka/api/command/suggestion/IntegerSuggestion.java:66-76 | with both kinds, 9 sorts before 10, 10 before the text "5" and "5" before 9, so the comparator orders no such list |
| Suggestions.SortIgnoreCase | src/main/java/net/shiruka/api/command/suggestion/Suggestions.java:96-114 | the sorted list is a permutation of its input, in `compareToIgnoreCase` order whenever its suggestions are all of one kind |
| Sorting.Sort | src/main/java/net/shiruka/api/command/suggestion/Suggestions.java:111-112 | the sorted list is a permutation of its input |
| Sorting.SortSorted | src/main/java/net/shiruka/api/command/suggestion/Suggestions.java:111-112 | under a comparator that is total and transitive on the list, the list comes out sorted |
| Suggestions.Create | src/main/java/net/shiruka/api/command/suggestion/Suggestions.java:96-114 | `create` of no suggestions is the empty result; otherwise the range spans all of them and the list holds every suggestion expanded to the new range object, once each: all plain suggestions over that range, sorted by text ignoring case |
| Suggestions.CreateCorrected | src/main/java/net/shiruka/api/command/suggestion/Suggestions.java:96-114 | with ranges compared by their ends, a suggestion already over the common range is kept as it is; the list holds each expanded suggestion once, sorted ignoring case when they are all of one kind |
| Suggestions.Bounds | src/main/java/net/shiruka/api/command/suggestion/Suggestions.java:96-114 | the loop finds the least start and the greatest end |
| Suggestions.BoundsStep | src/main/java/net/shiruka/api/command/suggestion/Suggestions.java:96-114 | one more suggestion updates the least start and greatest end by `Math.min` and `Math.max` |
| Suggestions.ExpandAll | src/main/java/net/shiruka/api/command/suggestion/Suggestions.java:107-110 | the set gains exactly the expanded suggestions, each once; as written they are all plain suggestions over the range, so an integer suggestion and a plain one of the same text and tooltip are one entry |
| Suggestions.Merge | src/main/java/net/shiruka/api/command/suggestion/Suggestions.java:135-147 | merging nothing is empty, merging one gives it back, and merging more is `create` over all their suggestions: plain suggestions, each once, sorted by text ignoring case |
| Suggestions.AllSuggestions | src/main/java/net/shiruka/api/command/suggestion/Suggestions.java:143-145 | every suggestion of every input is in the flattened list |
| Suggestions.Builder.constructor | src/main/java/net/shiruka/api/command/suggestion/Suggestions.java:238-242 | a builder over the input from `start` with no suggestions yet |
| Suggestions.Builder.Suggest | src/main/java/net/shiruka/api/command/suggestion/Suggestions.java:311-317 | a text equal to the remaining input is ignored; any other is added with the range from `start` to the end of the input |
| Suggestions.Builder.SuggestInt | src/main/java/net/shiruka/api/command/suggestion/Suggestions.java:327-330 | an integer suggestion of the value is added with the range from `start` to the end, even when its text is the remaining input |
| Suggestions.Builder.Build | src/main/java/net/shiruka/api/command/suggestion/Suggestions.java:250-252 | the built suggestions are the plain forms of those suggested, once each, over the builder's range, sorted by text ignoring case; no integer suggestion survives |
| Suggestions.Builder.BuildCorrected | src/main/java/net/shiruka/api/command/suggestion/Suggestions.java:250-252 | with ranges compared by their ends, the built suggestions are exactly those suggested, once each, sorted ignoring case when all are of one kind, and in strictly ascending value when all are integer suggestions |
| Suggestions.BuildNineTen | src/main/java/net/shiruka/api/command/suggestion/Suggestions.java:250-252 | as written, `suggest(9)`, `suggest(10)`, `build()` lists the plain texts "10" then "9" |
| Suggestions.BuildNineTenCorrected | src/main/java/net/shiruka/api/command/suggestion/Suggestions.java:250-252 | with ranges compared by their ends, the same builder lists the values 9 then 10 |
| Suggestions.TextOrderNineTen | src/main/java/net/shiruka/api/command/suggestion/Suggestion.java:139-141 | the plain texts "9" and "10", each once, in `compareToIgnoreCase` order are "10" then "9" |
| Suggestions.ExpandedPlain | src/main/java/net/shiruka/api/command/suggestion/Suggestions.java:106-110 | suggestions already over the common range come out of `create` in their plain forms |
| Suggestions.ValuesAscending | src/main/java/net/shiruka/api/command/suggestion/IntegerSuggestion.java:66-76 | distinct integer suggestions over one range in `compareToIgnoreCase` order have strictly ascending values |
| Suggestions.BuilderRange | src/main/java/net/shiruka/api/command/suggestion/Suggestions.java:250-252 | suggestions that share one range can always be created, and their common range is that range |
| StringArgumentType.GetExamples | src/main/java/net/shiruka/api/command/arguments/StringArgumentType.java:119-124 | a term's examples are its options; the other kinds have examples of their own |
| StringArgumentType.EscapedChar | src/main/java/net/shiruka/api/command/arguments/StringArgumentType.java:104-115 | a character is kept, or put behind a backslash |
| StringArgumentType.Escaped | src/main/java/net/shiruka/api/command/arguments/StringArgumentType.java:104-115 | the escaped text is in double quotes |
| StringArgumentType.EscapedBodySnoc | src/main/java/net/shiruka/api/command/arguments/StringArgumentType.java:104-115 | escaping works character by character |
| StringArgumentType.EscapedBodyReadsBack | src/main/java/net/shiruka/api/command/arguments/StringArgumentType.java:104-115 | reading an escaped body up to its closing quote gives the original text back |
| StringArgumentType.EscapedReadsBack | src/main/java/net/shiruka/api/command/arguments/StringArgumentType.java:104-115 | `readText` of an escaped text gives the original text and stops just after the closing quote |
| StringArgumentType.Escape | src/main/java/net/shiruka/api/command/arguments/StringArgumentType.java:104-115 | the loop builds the escaped text |
| StringArgumentType.EscapeIfRequired | src/main/java/net/shiruka/api/command/arguments/StringArgumentType.java:87-94 | a text of unquoted-text characters only is returned as it is; any other is escaped |
| StringArgumentType.EscapeIfRequiredReadsBack | src/main/java/net/shiruka/api/command/arguments/StringArgumentType.java:87-94 | whatever `escapeIfRequired` returns, `readText` reads the original text back from it |
| StringArgumentType.UnquotedRun | src/main/java/io/github/shiruka/api/command/TextReader.java:445-451 | an unquoted read stops exactly at the end of the run of unquoted-text characters |
| StringArgumentType.ParseAt | src/main/java/net/shiruka/api/command/arguments/StringArgumentType.java:128-145 | a greedy phrase takes the rest of the input, a word reads unquoted text, a quotable phrase reads text, and a term reads a word that must be one of its options, else `TERM_INVALID` with the cursor after the word |
| StringArgumentType.Parse | src/main/java/net/shiruka/api/command/arguments/StringArgumentType.java:128-145 | the method's result and new cursor are those of `ParseAt` |
| StringArgumentType.StringLePreorder | src/main/java/net/shiruka/api/command/arguments/StringArgumentType.java:149-159 | `String.compareTo` orders strings totally and transitively, so `sorted()` is well defined |
| StringArgumentType.Matching | src/main/java/net/shiruka/api/command/arguments/StringArgumentType.java:154-157 | the options kept are those that begin with the remaining input, ignoring case |
| StringArgumentType.TermCompletions | src/main/java/net/shiruka/api/command/arguments/StringArgumentType.java:154-157 | the completions are the matching options, a permutation of them with every repeat kept, in `String.compareTo` order |
| StringArgumentType.Offered | src/main/java/net/shiruka/api/command/suggestion/Suggestions.java:311-317 | the suggestions offered for some texts are those texts other than the remaining input, over the builder's range |
| StringArgumentType.ListSuggestions | src/main/java/net/shiruka/api/command/arguments/StringArgumentType.java:149-159 | only a term suggests, offering its sorted matching options; the built suggestions are the plain forms of everything the builder holds, so exactly those offered when it held nothing else |
| StringArgumentType.SuggestAll | src/main/java/net/shiruka/api/command/arguments/StringArgumentType.java:154-157 | the `forEach` adds exactly the offered suggestions, in order |
| StringArgumentType.OfferedSnoc | src/main/java/net/shiruka/api/command/suggestion/Suggestions.java:311-317 | one more text offers one more suggestion unless it equals the remaining input |
| StringArgumentType.ToString | src/main/java/net/shiruka/api/command/arguments/StringArgumentType.java:162-167 | "string()" for the non-term kinds; a term is "term([", then its options joined with ", ", then "])" |
| IntegerArgumentType.ParseAt | src/main/java/net/shiruka/api/command/arguments/IntegerArgumentType.java:75-87 | a read integer within the bounds is accepted and the read is returned unchanged; below the minimum is `INTEGER_TOO_SMALL` and above the maximum `INTEGER_TOO_BIG`, both with the cursor put back; errors of `readInt` are passed on |
| IntegerArgumentType.Parse | src/main/java/net/shiruka/api/command/arguments/IntegerArgumentType.java:75-87 | the method's result and new cursor are those of `ParseAt` |
| IntegerArgumentType.Equals | src/main/java/net/shiruka/api/command/arguments/IntegerArgumentType.java:95-105 | two types are equal exactly when their bounds are |
| IntegerArgumentType.HashCode | src/main/java/net/shiruka/api/command/arguments/IntegerArgumentType.java:90-92 | the hash is a 32-bit value |
| IntegerArgumentType.EqualsHashCode | src/main/java/net/shiruka/api/command/arguments/IntegerArgumentType.java:90-105 | equal types have equal hashes |
| IntegerArgumentType.ToString | src/main/java/net/shiruka/api/command/arguments/IntegerArgumentType.java:108-116 | "integer()" for the full range, the minimum alone when the maximum is `Integer.MAX_VALUE`, both bounds otherwise |
| IntegerArgumentType.ToStringDefaultIff | src/main/java/net/shiruka/api/command/arguments/IntegerArgumentType.java:108-116 | the text is "integer()" exactly for the full range |
| CommandResult.SimpleCommandResult.constructor | src/main/java/net/shiruka/api/command/CommandResult.java:102-104 | the result holds the given 32-bit value |
| CommandResult.SimpleCommandResult.Result | src/main/java/net/shiruka/api/command/CommandResult.java:138-140 | the result is a 32-bit value |
| CommandResult.SimpleCommandResult.Merge | src/main/java/net/shiruka/api/command/CommandResult.java:132-135 | `merge` adds the other result in 32-bit wrap-around arithmetic and returns this object |
| CommandResult.SimpleCommandResult.HashCode | src/main/java/net/shiruka/api/command/CommandResult.java:107-109 | the hash is a 32-bit value |
| CommandResult.SimpleCommandResult.Equals | src/main/java/net/shiruka/api/command/CommandResult.java:112-121 | two results are equal exactly when their counts are |
| CommandResult.SimpleCommandResult.ToString | src/main/java/net/shiruka/api/command/CommandResult.java:124-128 | the count's decimal text stands between "SimpleCommandResult{result=" and "}" |
| CommandResult.Empty | src/main/java/net/shiruka/api/command/CommandResult.java:44-46 | a new result of 0 |
| CommandResult.Of | src/main/java/net/shiruka/api/command/CommandResult.java:54-56 | a new result of 1 |
| CommandResult.OfAmount | src/main/java/net/shiruka/api/command/CommandResult.java:66-68 | a new result of the amount |
| CommandResult.Hash | src/main/java/net/shiruka/api/command/CommandResult.java:107-109 | the hash is a 32-bit value |
| CommandResult.Render | src/main/java/net/shiruka/api/command/CommandResult.java:124-128 | the text is "SimpleCommandResult{result=" with the value and "}" |
| CommandResult.MergeAssociative | src/main/java/net/shiruka/api/command/CommandResult.java:132-135 | merging is associative, overflow included |
| CommandResult.MergeEmptyIdentity | src/main/java/net/shiruka/api/command/CommandResult.java:44-46 | merging with an empty result changes nothing |
| CommandResult.MergeOverflows | src/main/java/net/shiruka/api/command/CommandResult.java:132-135 | merging past `Integer.MAX_VALUE` wraps to `Integer.MIN_VALUE` |
| CommandResult.HashInjective | src/main/java/net/shiruka/api/command/CommandResult.java:107-109 | results of different values have different hashes |
| CommandResult.RenderInjective | src/main/java/net/shiruka/api/command/CommandResult.java:124-128 | results of different values have different texts |
| CommandResult.EqualsConsistent | src/main/java/net/shiruka/api/command/CommandResult.java:107-128 | `equals` agrees with `hashCode` and with `toString` in both directions |
| CommandNodeEnvelope.At | src/main/java/net/shiruka/api/command/tree/CommandNodeEnvelope.java:207-209 | a node of the graph is looked up by its id |
| CommandNodeEnvelope.Put | src/main/java/net/shiruka/api/command/tree/CommandNodeEnvelope.java:173-193 | replacing one node keeps the ids of the graph and every other node |
| CommandNodeEnvelope.LookupAll | src/main/java/net/shiruka/api/command/tree/CommandNodeEnvelope.java:213-215 | the children named in order are found, one per name, each the child of that name |
| CommandNodeEnvelope.LookupValues | src/main/java/net/shiruka/api/command/tree/CommandNodeEnvelope.java:213-215 | every node looked up is a child of the node |
| CommandNodeEnvelope.Usage | src/main/java/net/shiruka/api/command/tree/ArgumentNode.java:139-143 | a root node's usage is empty; an argument node's usage is its name between "<" and ">" |
| CommandNodeEnvelope.CanUse | src/main/java/net/shiruka/api/command/tree/CommandNodeEnvelope.java:196-198 | a node without requirements can be used; a usable node meets its last requirement |
| CommandNodeEnvelope.AddChildTo | src/main/java/net/shiruka/api/command/tree/CommandNodeEnvelope.java:173-193 | `addChild` can fail only with "Cannot add a RootNode as a child to any other CommandNode!" |
| CommandNodeEnvelope.Detach | src/main/java/net/shiruka/api/command/tree/CommandNodeEnvelope.java:254-259 | `removeChild` drops the name from the children, and from the ordered names and the arguments when it was a child; every other argument, the kind, the command, `hasLiterals` and the redirect are kept |
| CommandNodeEnvelope.MergeCommand | src/main/java/net/shiruka/api/command/tree/CommandNodeEnvelope.java:182 | merging into an existing child takes the incoming node's command, so the result is absent whenever the incoming node has none |
| CommandNodeEnvelope.MergeCommandCorrected | src/main/java/net/shiruka/api/command/tree/CommandNodeEnvelope.java:182 | the corrected merge has a command exactly when either node has one, and prefers the incoming one |
| CommandNodeEnvelope.CompareNodesCorrected | src/main/java/net/shiruka/api/command/tree/CommandNodeEnvelope.java:262-267 | the corrected comparison puts a literal before an argument, and reports two nodes of the same kind equal exactly when their names are equal |
| CommandNodeEnvelope.NameLePreorder | src/main/java/net/shiruka/api/command/tree/CommandNodeEnvelope.java:262-267 | the children map is ordered by `String.compareTo`, a total and transitive order |
| CommandNodeEnvelope.Attach | src/main/java/net/shiruka/api/command/tree/CommandNodeEnvelope.java:184-191 | `children.put(name, node)` adds the name and keeps the node's kind and command |
| CommandNodeEnvelope.Without | src/main/java/net/shiruka/api/command/tree/CommandNodeEnvelope.java:254-259 | removing a name from the ordered names keeps exactly the other names |
| CommandNodeEnvelope.GrownTransitive | src/main/java/net/shiruka/api/command/tree/CommandNodeEnvelope.java:173-193 | adding children never loses a node, so repeated additions keep every node of the start |
| CommandNodeEnvelope.AddChildToGrows | src/main/java/net/shiruka/api/command/tree/CommandNodeEnvelope.java:173-193 | `addChild` keeps every node of the graph (it only adds and merges) |
| CommandNodeEnvelope.AddChildToNamed | src/main/java/net/shiruka/api/command/tree/CommandNodeEnvelope.java:173-193 | after a successful `addChild` the parent has a child of the node's name |
| CommandNodeEnvelope.PlaceGrows | src/main/java/net/shiruka/api/command/tree/CommandNodeEnvelope.java:180-191 | merging into an existing child of the same name, or putting the node under its name, keeps every node and leaves the name among the parent's children |
| CommandNodeEnvelope.AddChildrenToGrows | src/main/java/net/shiruka/api/command/tree/CommandNodeEnvelope.java:178 | adding the aliases (or a merged node's children) one by one keeps every node |
| CommandNodeEnvelope.AddChildrenToNamed | src/main/java/net/shiruka/api/command/tree/CommandNodeEnvelope.java:178 | after adding a list of nodes, each one's name is a child of the parent |
| CommandNodeEnvelope.RelevantNodes | src/main/java/net/shiruka/api/command/tree/CommandNodeEnvelope.java:225-251 | every relevant node is a child of the node or its default node |
| CommandNodeEnvelope.RelevantNodesShape | src/main/java/net/shiruka/api/command/tree/CommandNodeEnvelope.java:225-251 | with no input left and a default node, only that node; otherwise the argument children in order, preceded by the literal child named by the next word exactly when the node has literals and that child is a literal |
| CommandNodeEnvelope.CanUseRequirements | src/main/java/net/shiruka/api/command/tree/CommandNodeEnvelope.java:196-198 | a node without requirements can be used; adding a requirement makes the node usable exactly when it was and the requirement holds |
| CommandNodeEnvelope.CompareNodes | src/main/java/net/shiruka/api/command/tree/CommandNodeEnvelope.java:262-267 | two literals compare by name; otherwise a literal on the right makes the result 1, else -1 |
| CommandNodeEnvelope.AddRootRefused | src/main/java/net/shiruka/api/command/tree/CommandNodeEnvelope.java:173-176 | adding a root node fails with "Cannot add a RootNode as a child to any other CommandNode!" and changes nothing |
| CommandNodeEnvelope.AddNewArgument | src/main/java/net/shiruka/api/command/tree/CommandNodeEnvelope.java:180-191 | a new argument child is put under its name and added to the arguments; nothing else changes |
| CommandNodeEnvelope.AddNewLiteral | src/main/java/net/shiruka/api/command/tree/CommandNodeEnvelope.java:180-191 | a new literal child without aliases is put under its name and sets `hasLiterals`; nothing else changes |
| CommandNodeEnvelope.AttachWellOrdered | src/main/java/net/shiruka/api/command/tree/CommandNodeEnvelope.java:184-191 | putting a new name keeps the children's order and the argument names consistent |
| CommandNodeEnvelope.WithoutSorted | src/main/java/net/shiruka/api/command/tree/CommandNodeEnvelope.java:254-259 | removing a name keeps the names sorted |
| CommandNodeEnvelope.WithoutNoDuplicates | src/main/java/net/shiruka/api/command/tree/CommandNodeEnvelope.java:254-259 | removing a name keeps the names distinct |
| CommandNodeEnvelope.DetachRemoves | src/main/java/net/shiruka/api/command/tree/CommandNodeEnvelope.java:254-259 | `removeChild` removes the name from the children and the arguments, keeps every other argument and the command, and keeps the node consistent |
| CommandNodeEnvelope.AddChildDropsCommand | src/main/java/net/shiruka/api/command/tree/CommandNodeEnvelope.java:180-185 | adding a node without a command under the name of a child that has one erases the child's command |
| CommandNodeEnvelope.MergeCommandCorrectedKeeps | src/main/java/net/shiruka/api/command/tree/CommandNodeEnvelope.java:180-185 | the corrected merge keeps the existing command unless the incoming node has one, and differs from the source exactly in that case |
| CommandNodeEnvelope.CompareNodesNotAntisymmetric | src/main/java/net/shiruka/api/command/tree/CommandNodeEnvelope.java:262-267 | two argument nodes each compare below the other |
| CommandNodeEnvelope.CompareNodesCorrectedOrder | src/main/java/net/shiruka/api/command/tree/CommandNodeEnvelope.java:262-267 | the corrected comparison is antisymmetric and transitive and puts literals first |
| CommandNodeEnvelope.CommandGraph.constructor | src/main/java/net/shiruka/api/command/tree/CommandNodeEnvelope.java:154-170 | a graph holds the given nodes |
| CommandNodeEnvelope.CommandGraph.GetChild | src/main/java/net/shiruka/api/command/tree/CommandNodeEnvelope.java:207-209 | `getChild(name)` is present exactly when the node has a child of that name, and is that child |
| CommandNodeEnvelope.CommandGraph.AddChild | src/main/java/net/shiruka/api/command/tree/CommandNodeEnvelope.java:173-193 | the nodes and error after `addChild` are those of `AddChildTo` |
| CommandNodeEnvelope.CommandGraph.PlaceChild | src/main/java/net/shiruka/api/command/tree/CommandNodeEnvelope.java:180-191 | the nodes and error after placing the node are those of `Place` |
| CommandNodeEnvelope.CommandGraph.AddChildren | src/main/java/net/shiruka/api/command/tree/CommandNodeEnvelope.java:178 | the nodes and error after adding the nodes in turn are those of `AddChildrenTo` |
| CommandNodeEnvelope.CommandGraph.RemoveChild | src/main/java/net/shiruka/api/command/tree/CommandNodeEnvelope.java:254-259 | only the parent changes, to the node with the name detached |
| CommandNodeEnvelope.CommandGraph.GetRelevantNodes | src/main/java/net/shiruka/api/command/tree/CommandNodeEnvelope.java:225-251 | the nodes returned are `RelevantNodes`, and the cursor is put back |
| CommandContextBuilder.Fresh | src/main/java/io/github/shiruka/api/command/context/CommandContextBuilder.java:99-104 | a new builder has no nodes, arguments, child or command, an empty range at the start, and the given root and sender |
| CommandContextBuilder.SuggestionContextOf | src/main/java/io/github/shiruka/api/command/context/CommandContextBuilder.java:147-169 | a cursor before the start fails with "Can't find node before cursor"; no other failure |
| CommandContextBuilder.LastChild | src/main/java/io/github/shiruka/api/command/context/CommandContextBuilder.java:207-213 | the last child has no child of its own |
| CommandContextBuilder.ContextAmongFirst | src/main/java/io/github/shiruka/api/command/context/CommandContextBuilder.java:160-167 | the loop returns at the first node whose range holds the cursor, with the node before it (or the root) and that node's start |
| CommandContextBuilder.ContextAmongNone | src/main/java/io/github/shiruka/api/command/context/CommandContextBuilder.java:160-168 | when no node holds the cursor the loop ends with the last node (or the root) and the builder's start |
| CommandContextBuilder.ContextAmongStart | src/main/java/io/github/shiruka/api/command/context/CommandContextBuilder.java:160-168 | the loop's start position is never past the cursor |
| CommandContextBuilder.SuggestionStartBeforeCursor | src/main/java/io/github/shiruka/api/command/context/CommandContextBuilder.java:147-169 | the suggestion context found for a cursor never starts past it, through children and past the last node included |
| CommandContextBuilder.NodeAddedWithin | src/main/java/io/github/shiruka/api/command/context/CommandContextBuilder.java:306-312 | `withNode` widens the builder's range to cover the node's range and keeps every node within it |
| CommandContextBuilder.CopyThenNode | src/main/java/io/github/shiruka/api/command/context/CommandContextBuilder.java:125-134 | the copy keeps everything but the redirect modifier, and adding a node to the copy gives what adding it to the original gives |
| CommandContextBuilder.LastChildProperties | src/main/java/io/github/shiruka/api/command/context/CommandContextBuilder.java:207-213 | the last child of the last child is itself, and a builder is its own last child exactly when it has no child |
| CommandContextBuilder.LastChildDeeper | src/main/java/io/github/shiruka/api/command/context/CommandContextBuilder.java:207-213 | a builder with a child is not its own last child |
| CommandContextBuilder.LastChildDepth | src/main/java/io/github/shiruka/api/command/context/CommandContextBuilder.java:207-213 | the last child is at depth 0 |
| CommandContextBuilder.CommandContextBuilder.constructor | src/main/java/io/github/shiruka/api/command/context/CommandContextBuilder.java:99-104 | the new builder's state is `Fresh` |
| CommandContextBuilder.CommandContextBuilder.Copy | src/main/java/io/github/shiruka/api/command/context/CommandContextBuilder.java:125-134 | a new builder whose state is `Copied` |
| CommandContextBuilder.CommandContextBuilder.WithNode | src/main/java/io/github/shiruka/api/command/context/CommandContextBuilder.java:306-312 | the node and its range are appended, the range widened, and the node's modifier and fork flag taken |
| CommandContextBuilder.CommandContextBuilder.WithArgument | src/main/java/io/github/shiruka/api/command/context/CommandContextBuilder.java:266-269 | the argument is put under its name |
| CommandContextBuilder.CommandContextBuilder.WithChild | src/main/java/io/github/shiruka/api/command/context/CommandContextBuilder.java:279-282 | only the child changes |
| CommandContextBuilder.CommandContextBuilder.WithCommand | src/main/java/io/github/shiruka/api/command/context/CommandContextBuilder.java:292-295 | only the command changes |
| CommandContextBuilder.CommandContextBuilder.WithSender | src/main/java/io/github/shiruka/api/command/context/CommandContextBuilder.java:322-325 | only the sender changes |
| CommandContextBuilder.CommandContextBuilder.FindSuggestionContext | src/main/java/io/github/shiruka/api/command/context/CommandContextBuilder.java:147-169 | the context found is `SuggestionContextOf` the state |
| CommandContextBuilder.CommandContextBuilder.GetLastChild | src/main/java/io/github/shiruka/api/command/context/CommandContextBuilder.java:207-213 | the loop finds `LastChild` of the state |
| CommandContextBuilder.FindSuggestionContextIn | src/main/java/io/github/shiruka/api/command/context/CommandContextBuilder.java:147-169 | the context found is `SuggestionContextOf` the builder |
| LiteralNode.LiteralKind | src/main/java/net/shiruka/api/command/tree/LiteralNode.java:83-93 | the literal is kept in lower case, with its length and the aliases |
| LiteralNode.MatchEnd | src/main/java/net/shiruka/api/command/tree/LiteralNode.java:199-214 | a match ends within the text before a space or the end, either just after the literal read at the cursor or, for a default node, at the end of input |
| LiteralNode.MatchEndAccepts | src/main/java/net/shiruka/api/command/tree/LiteralNode.java:199-214 | the literal followed by a space or the end is matched, whether or not the node is a default |
| LiteralNode.LiteralIsValidInput | src/main/java/net/shiruka/api/command/tree/LiteralNode.java:130-132 | the literal alone, and the literal followed by a space and more input, are valid input |
| LiteralNode.UpperCaseNeverMatches | src/main/java/net/shiruka/api/command/tree/LiteralNode.java:83-93 | as the literal is lower-cased, input with an upper-case letter where the literal stands never matches |
| LiteralNode.ParseInto | src/main/java/net/shiruka/api/command/tree/LiteralNode.java:135-144 | `parse` succeeds exactly when the literal matches, adding the node with the range it matched; otherwise `LITERAL_INCORRECT` at the cursor |
| LiteralNode.Match | src/main/java/net/shiruka/api/command/tree/LiteralNode.java:199-214 | the method returns the match's end with the cursor there, or -1 with the cursor put back |
| LiteralNode.Parse | src/main/java/net/shiruka/api/command/tree/LiteralNode.java:135-144 | the builder and cursor after `parse` are those of `ParseInto`; on failure neither changes |
| LiteralNode.Suggest | src/main/java/net/shiruka/api/command/tree/LiteralNode.java:148-155 | the literal is suggested exactly when the remaining input begins it ignoring case (and is not already all of it); otherwise nothing |
| LiteralNode.ToString | src/main/java/net/shiruka/api/command/tree/LiteralNode.java:188-190 | the text is "<literal ", then exactly the literal, then ">" |
| ArgumentNode.TypeParse | src/main/java/net/shiruka/api/command/tree/ArgumentNode.java:156-158 | a value read by the argument type ends within the text |
| ArgumentNode.ParseInto | src/main/java/net/shiruka/api/command/tree/ArgumentNode.java:153-162 | a successful parse appends the node with the range read and keeps the sender, root, child and command |
| ArgumentNode.ParseIntoRecords | src/main/java/net/shiruka/api/command/tree/ArgumentNode.java:153-162 | the argument is recorded under its name with the range read; every other argument is kept |
| ArgumentNode.DefaultAtEnd | src/main/java/net/shiruka/api/command/tree/ArgumentNode.java:153-162 | a default node with no input left takes its default value at an empty range, or throws the `NullPointerException` "result" when it has none |
| ArgumentNode.TypeDecides | src/main/java/net/shiruka/api/command/tree/ArgumentNode.java:153-162 | where input is left or the node is not a default, the argument type decides success, the error and the value |
| ArgumentNode.ReadValue | src/main/java/net/shiruka/api/command/tree/ArgumentNode.java:156-158 | the value and cursor are those of `TypeParse` |
| ArgumentNode.Parse | src/main/java/net/shiruka/api/command/tree/ArgumentNode.java:153-162 | the builder and cursor after `parse` are those of `ParseInto`; on failure the builder is unchanged; after an unchecked failure the cursor has not moved, and after a syntax failure it is where the argument type's parse stopped |
| CommandDispatcher.NodeParsed | src/main/java/net/shiruka/api/command/CommandDispatcher.java:201 | `child.parse(reader, context)` ends within the text, keeps the sender, root and child, appends the node with the range read ; a root node reads nothing |
| CommandDispatcher.ChildParsed | src/main/java/net/shiruka/api/command/CommandDispatcher.java:199-208 | a child's parse is kept exactly when it succeeds and ends before a space or the end of input; a parse ending elsewhere is `DISPATCHER_EXPECTED_ARGUMENT_SEPARATOR` at its end |
| CommandDispatcher.BestIndex | src/main/java/net/shiruka/api/command/CommandDispatcher.java:243-261 | the candidate chosen is the first of the best rank (fully read first, then free of exceptions), as the stable sort followed by `get(0)` picks it |
| CommandDispatcher.Skipped | src/main/java/net/shiruka/api/command/CommandDispatcher.java:219 | reading goes on within the text after the separator |
| CommandDispatcher.ScanNoneParses | src/main/java/net/shiruka/api/command/CommandDispatcher.java:193-242 | when no relevant child parses, the result keeps the builder and the original cursor and records the exception of exactly the children that failed, in order |
| CommandDispatcher.ParseFromExtends | src/main/java/net/shiruka/api/command/CommandDispatcher.java:187-262 | the result of `parseNodes` is over the same text, never before the cursor, with the builder's sender and root |
| CommandDispatcher.ScanExtends | src/main/java/net/shiruka/api/command/CommandDispatcher.java:193-261 | the loop over the relevant children keeps that property for every candidate it returns |
| CommandDispatcher.StepOfExtends | src/main/java/net/shiruka/api/command/CommandDispatcher.java:193-236 | a candidate or redirect produced for one child keeps that property |
| CommandDispatcher.ContinuedExtends | src/main/java/net/shiruka/api/command/CommandDispatcher.java:217-236 | parsing on from a child (or its redirect target) keeps that property |
| CommandDispatcher.ParseNode | src/main/java/net/shiruka/api/command/CommandDispatcher.java:201 | the builder and cursor after the child's parse are those of `NodeParsed` |
| CommandDispatcher.ParseChild | src/main/java/net/shiruka/api/command/CommandDispatcher.java:199-208 | the builder and cursor after the parse and the separator check are those of `ChildParsed` |
| CommandDispatcher.TryChild | src/main/java/net/shiruka/api/command/CommandDispatcher.java:194-216 | one pass of the loop body, on a copy of the builder and of the reader, gives `StepOf` |
| CommandDispatcher.ContinueChild | src/main/java/net/shiruka/api/command/CommandDispatcher.java:217-236 | the rest of the loop body gives `Continued` |
| CommandDispatcher.ParseNodes | src/main/java/net/shiruka/api/command/CommandDispatcher.java:187-262 | `parseNodes` returns `ParseFrom` and leaves the original reader's cursor where it was |
| CommandDispatcher.CopyFor | src/main/java/net/shiruka/api/command/CommandDispatcher.java:322 | `copyFor(sender)` keeps the depth of the context and takes the sender |
| CommandDispatcher.CopiesFor | src/main/java/net/shiruka/api/command/CommandDispatcher.java:331 | one copy per sender the modifier returned, in order |
| CommandDispatcher.Height | src/main/java/net/shiruka/api/command/CommandDispatcher.java:308-359 | the height of a level bounds the depth of every context in it, which the loop over levels decreases |
| CommandDispatcher.HeightBelow | src/main/java/net/shiruka/api/command/CommandDispatcher.java:308-359 | a level of shallower contexts has a smaller height |
| CommandDispatcher.VisitAllShallower | src/main/java/net/shiruka/api/command/CommandDispatcher.java:309-356 | every context of the next level is a child of one in this level, so it is shallower |
| CommandDispatcher.ExecuteRejectsUnread | src/main/java/net/shiruka/api/command/CommandDispatcher.java:291-299 | input left unread fails: with the one recorded exception, else `DISPATCHER_UNKNOWN_COMMAND` when nothing was read, else `DISPATCHER_UNKNOWN_ARGUMENT` |
| CommandDispatcher.ExecuteRunsCommand | src/main/java/net/shiruka/api/command/CommandDispatcher.java:341-364 | a fully read command without a child runs its command once and returns its result |
| CommandDispatcher.ExecuteWithoutCommand | src/main/java/net/shiruka/api/command/CommandDispatcher.java:341-363 | a fully read input without command or child fails with `DISPATCHER_UNKNOWN_COMMAND` |
| CommandDispatcher.Successes | src/main/java/net/shiruka/api/command/CommandDispatcher.java:345-355 | the number of senders for which the command ran without an exception is at most the number of senders |
| CommandDispatcher.ForkedLevelCounts | src/main/java/net/shiruka/api/command/CommandDispatcher.java:309-356 | in a forked run, running a command for each sender never fails and adds one successful fork per run that did not throw |
| CommandDispatcher.ExecuteForkCounts | src/main/java/net/shiruka/api/command/CommandDispatcher.java:310-364 | a forking redirect with a modifier returns the number of senders for which the command succeeded, wrapped to 32 bits |
| CommandDispatcher.VisitContext | src/main/java/net/shiruka/api/command/CommandDispatcher.java:310-355 | one pass of the inner loop's body updates the two results, the flags and the next level as `Visit` says, or throws its exception |
| CommandDispatcher.Visit | src/main/java/net/shiruka/api/command/CommandDispatcher.java:310-355 | one context's turn never shrinks the next level, sets `forked` when the context forks into a child, never clears `foundCommand`, and can throw only when nothing forked |
| CommandDispatcher.VisitLevel | src/main/java/net/shiruka/api/command/CommandDispatcher.java:309-356 | the inner loop over one level gives `VisitAll` |
| CommandDispatcher.Execute | src/main/java/net/shiruka/api/command/CommandDispatcher.java:290-365 | `execute(parse)` returns `Executed`: the result, or the exception thrown |
| CommandDispatcher.RegisteredAppend | src/main/java/net/shiruka/api/command/CommandDispatcher.java:523-530 | registering two lists in turn equals registering them together, stopping at the first error |
| CommandDispatcher.Registered | src/main/java/net/shiruka/api/command/CommandDispatcher.java:523-530 | `register` can fail only with the default-node message or the root-as-child message; a default node first in the list fails at once and changes nothing |
| CommandDispatcher.Unregistered | src/main/java/net/shiruka/api/command/CommandDispatcher.java:548-550 | `unregister` keeps every node id, only removes children of the root, removes every given name, and changes no other node |
| CommandDispatcher.FindPath | src/main/java/net/shiruka/api/command/CommandDispatcher.java:391-401 | the empty path finds the node itself; a path whose first name is not a child finds nothing; a found path starts with a child's name |
| CommandDispatcher.RegisterStopsAtDefault | src/main/java/net/shiruka/api/command/CommandDispatcher.java:523-530 | registering a default node fails with "You cannot register default nodes!" and leaves what was registered before it |
| CommandDispatcher.RegisterGrows | src/main/java/net/shiruka/api/command/CommandDispatcher.java:523-530 | registering keeps every node, and after a registration without error each command's name is a child of the root |
| CommandDispatcher.UnregisterRemoves | src/main/java/net/shiruka/api/command/CommandDispatcher.java:548-550 | unregistering removes exactly the given names from the root's children and arguments, keeps every other child and the root's command, and changes no other node |
| CommandDispatcher.FindPathAppend | src/main/java/net/shiruka/api/command/CommandDispatcher.java:391-401 | following a path is following its first part and then the rest from where it led |
| CommandDispatcher.RegisteredFound | src/main/java/net/shiruka/api/command/CommandDispatcher.java:391-401 | after a registration without error each registered command is found by its name |
| CommandDispatcher.Dispatcher.constructor | src/main/java/net/shiruka/api/command/CommandDispatcher.java:104-113 | a dispatcher over a new, empty root node |
| CommandDispatcher.Dispatcher.Register | src/main/java/net/shiruka/api/command/CommandDispatcher.java:523-530 | the tree and error after `register` are those of `Registered` |
| CommandDispatcher.Dispatcher.Unregister | src/main/java/net/shiruka/api/command/CommandDispatcher.java:548-550 | the tree after `unregister` is `Unregistered` |
| CommandDispatcher.Dispatcher.FindNode | src/main/java/net/shiruka/api/command/CommandDispatcher.java:391-401 | the loop returns `FindPath` from the root |
| CommandDispatcher.Dispatcher.Parse | src/main/java/net/shiruka/api/command/CommandDispatcher.java:513-516 | `parse` is `ParseFrom` the root with a fresh builder at the reader's cursor; the result is over the same text, never before the cursor |
| CommandDispatcher.Dispatcher.ExecuteInput | src/main/java/net/shiruka/api/command/CommandDispatcher.java:378-381 | `execute(reader, sender)` is `Executed` of `parse` |
| CommandUsage.ExecutableChain | src/main/java/net/shiruka/api/command/CommandDispatcher.java:170-175 | a node is executable exactly when some node on its chain of default nodes has a command |
| CommandUsage.ExecutableMonotone | src/main/java/net/shiruka/api/command/CommandDispatcher.java:170-175 | following the default chain further never turns an executable node into one that is not |
| CommandUsage.IsNodeExecutable | src/main/java/net/shiruka/api/command/CommandDispatcher.java:170-175 | the loop returns `Executable` |
| CommandUsage.Executable | src/main/java/net/shiruka/api/command/CommandDispatcher.java:170-175 | a node with a command is executable; an executable node has a command or a default command node |
| CommandUsage.Extend | src/main/java/net/shiruka/api/command/CommandDispatcher.java:601-603 | a non-empty prefix begins the extended usage |
| CommandUsage.AllUsage | src/main/java/net/shiruka/api/command/CommandDispatcher.java:587-605 | with `restricted`, a node the sender cannot use gives no lines; a usable executable node gives the prefix as its first line |
| CommandUsage.AllUsagePrefixed | src/main/java/net/shiruka/api/command/CommandDispatcher.java:587-605 | every usage line collected under a non-empty prefix begins with it |
| CommandUsage.ChildrenUsagePrefixed | src/main/java/net/shiruka/api/command/CommandDispatcher.java:600-604 | every usage line collected for the children begins with the prefix |
| CommandUsage.RestrictedAmongAll | src/main/java/net/shiruka/api/command/CommandDispatcher.java:587-605 | every line of the restricted usage is also a line of the unrestricted usage |
| CommandUsage.ChildrenRestrictedAmongAll | src/main/java/net/shiruka/api/command/CommandDispatcher.java:600-604 | the same holds for the children's lines |
| CommandUsage.CollectUsage | src/main/java/net/shiruka/api/command/CommandDispatcher.java:587-605 | the private `getAllUsage` appends `AllUsage` to the result |
| CommandUsage.CollectChildren | src/main/java/net/shiruka/api/command/CommandDispatcher.java:601-603 | the `forEach` over the children appends `ChildrenUsage` |
| CommandUsage.CollectChild | src/main/java/net/shiruka/api/command/CommandDispatcher.java:601-603 | one child's turn appends that child's lines |
| CommandUsage.ChildrenUsageStep | src/main/java/net/shiruka/api/command/CommandDispatcher.java:601-603 | the children's lines are the first child's lines under the extended prefix, then the rest |
| CommandUsage.GetAllUsage | src/main/java/net/shiruka/api/command/CommandDispatcher.java:413-418 | `getAllUsage(node, sender, restricted)` is `AllUsage` under the empty prefix |
| CommandUsage.UsableMembers | src/main/java/net/shiruka/api/command/CommandDispatcher.java:642-644 | the children kept are exactly those the sender can use |
| CommandUsage.DistinctMembers | src/main/java/net/shiruka/api/command/CommandDispatcher.java:655-658 | the `LinkedHashSet` holds each usage once, all of them, starting with the first |
| CommandUsage.SelfInjective | src/main/java/net/shiruka/api/command/CommandDispatcher.java:623-625 | nodes of different usages show different usages |
| CommandUsage.SmartUsage | src/main/java/net/shiruka/api/command/CommandDispatcher.java:618-682 | `getSmartUsage` is null exactly when the sender cannot use the node; otherwise it begins with the node's own usage, in brackets when optional |
| CommandUsage.SmartUsageDeep | src/main/java/net/shiruka/api/command/CommandDispatcher.java:633-635 | a deep usage is the node's own usage alone |
| CommandUsage.SmartUsageAlternatives | src/main/java/net/shiruka/api/command/CommandDispatcher.java:655-681 | with two usable children of different usages the tail lists every child's usage between "[" and "]" when the node is executable, "(" and ")" otherwise, separated by "\|" |
| CommandUsage.SmartTail | src/main/java/net/shiruka/api/command/CommandDispatcher.java:636-681 | after the node's own usage, a redirect gives " -> " and the target's usage (or "..." for the root); a node without redirect and without usable children has no tail |
| CommandUsage.SmartUsagesEntries | src/main/java/net/shiruka/api/command/CommandDispatcher.java:479-489 | every entry of the map is a usable child with its usage; every usable child has an entry |
| CommandUsage.GetSmartUsage | src/main/java/net/shiruka/api/command/CommandDispatcher.java:479-489 | the map, in children order, is `SmartUsages` of the node's children, optional when the node has a command |
| CommandUsage.PutSmartUsage | src/main/java/net/shiruka/api/command/CommandDispatcher.java:482-487 | one child's turn adds its entry when it has a usage |
| CommandUsage.SmartUsagesStep | src/main/java/net/shiruka/api/command/CommandDispatcher.java:482-487 | the entries are the first child's entry, if any, then the rest |
| GameRuleMap.Lookup | src/main/java/io/github/shiruka/api/world/options/GameRuleMap.java:63-70 | `get` gives a value of the rule's type: the changed value when the rule is set, its default otherwise (set values are never the default) |
| GameRuleMap.SetChange | src/main/java/io/github/shiruka/api/world/options/GameRuleMap.java:108-112 | `set` keeps the changes well typed and free of default values |
| GameRuleMap.GameRuleMap.constructor | src/main/java/io/github/shiruka/api/world/options/GameRuleMap.java:43 | a new map has no changes |
| GameRuleMap.GameRuleMap.Get | src/main/java/io/github/shiruka/api/world/options/GameRuleMap.java:63-70 | `get` is the change for a set rule and the default exactly when the rule is not set |
| GameRuleMap.GameRuleMap.IsSet | src/main/java/io/github/shiruka/api/world/options/GameRuleMap.java:80-82 | a rule is set exactly when `get` would give something other than its default |
| GameRuleMap.GameRuleMap.Set | src/main/java/io/github/shiruka/api/world/options/GameRuleMap.java:108-112 | the changes after `set` are `SetChange` |
| GameRuleMap.GameRuleMap.Reset | src/main/java/io/github/shiruka/api/world/options/GameRuleMap.java:90-92 | the rule's change is removed |
| GameRuleMap.GameRuleMap.ResetAll | src/main/java/io/github/shiruka/api/world/options/GameRuleMap.java:97-99 | every change is removed |
| GameRuleMap.GameRuleMap.CopyTo | src/main/java/io/github/shiruka/api/world/options/GameRuleMap.java:50-52 | the target gains this map's changes, which win over its own; this map is unchanged unless it is the target |
| GameRuleMap.SetThenGet | src/main/java/io/github/shiruka/api/world/options/GameRuleMap.java:108-112 | after `set`, `get` gives the value unless the value is the default and the rule was already changed, in which case the old change stays |
| GameRuleMap.SetLeavesOthers | src/main/java/io/github/shiruka/api/world/options/GameRuleMap.java:108-112 | `set` of one rule leaves every other rule's value |
| GameRuleMap.ResetThenGet | src/main/java/io/github/shiruka/api/world/options/GameRuleMap.java:90-92 | after `reset` the rule reads as its default and every other rule is unchanged |
| GameRuleMap.CopyToThenGet | src/main/java/io/github/shiruka/api/world/options/GameRuleMap.java:50-52 | after `copyTo` the target reads this map's value for the rules this map sets and its own otherwise |
| GameRuleMap.SetDefaultNeedsReset | src/main/java/io/github/shiruka/api/world/options/GameRuleMap.java:90-112 | setting a rule back to its default does not undo a change; only `reset` does |
| Int2ObjectBiMap.PutEntry | src/main/java/io/github/shiruka/api/common/Int2ObjectBiMap.java:194-197 | `put` maps the key to the value and the value to the key, and keeps every other key's value |
| Int2ObjectBiMap.PutEntryCorrected | src/main/java/io/github/shiruka/api/common/Int2ObjectBiMap.java:194-197 | the corrected `put` maps the key and the value to each other |
| Int2ObjectBiMap.RemoveByKey | src/main/java/io/github/shiruka/api/common/Int2ObjectBiMap.java:206-217 | `remove(key)` succeeds exactly when the key is present and its value has a reverse entry, then drops both; otherwise nothing changes |
| Int2ObjectBiMap.RemoveByValue | src/main/java/io/github/shiruka/api/common/Int2ObjectBiMap.java:226-237 | `remove(value)` succeeds exactly when the value is present and its key has a forward entry; it drops the forward entry but leaves the reverse map as it was |
| Int2ObjectBiMap.RemoveByValueCorrected | src/main/java/io/github/shiruka/api/common/Int2ObjectBiMap.java:226-237 | the corrected `remove(value)` drops both the forward entry and the value's reverse entry |
| Int2ObjectBiMap.ValueOf | src/main/java/io/github/shiruka/api/common/Int2ObjectBiMap.java:147-153 | `get(key)` is the key's value, or the default value when the key is absent |
| Int2ObjectBiMap.KeyOf | src/main/java/io/github/shiruka/api/common/Int2ObjectBiMap.java:136-138 | `get(value)` is the value's key, or the default key when the value is absent |
| Int2ObjectBiMap.Int2ObjectBiMap.constructor | src/main/java/io/github/shiruka/api/common/Int2ObjectBiMap.java:42-48 | a new map is empty, with its default key and value, and its two directions inverse to each other |
| Int2ObjectBiMap.Int2ObjectBiMap.GetValue | src/main/java/io/github/shiruka/api/common/Int2ObjectBiMap.java:147-153 | a present key gives exactly the value it is paired with, which the map contains; an absent key gives the default value |
| Int2ObjectBiMap.Int2ObjectBiMap.ContainsKey | src/main/java/io/github/shiruka/api/common/Int2ObjectBiMap.java:103-105 | `containsKey` holds exactly when `get(key)` finds a value; in a bijection, exactly when the key is a value of the reverse map |
| Int2ObjectBiMap.Int2ObjectBiMap.ContainsValue | src/main/java/io/github/shiruka/api/common/Int2ObjectBiMap.java:114-116 | in a bijection, `containsValue` on the forward map agrees with the reverse map holding the value |
| Int2ObjectBiMap.Int2ObjectBiMap.GetKey | src/main/java/io/github/shiruka/api/common/Int2ObjectBiMap.java:136-138 | a present value gives its key; an absent value gives the default key |
| Int2ObjectBiMap.Int2ObjectBiMap.Put | src/main/java/io/github/shiruka/api/common/Int2ObjectBiMap.java:194-197 | the state after `put` is `PutEntry` |
| Int2ObjectBiMap.Int2ObjectBiMap.RemoveKey | src/main/java/io/github/shiruka/api/common/Int2ObjectBiMap.java:206-217 | the state and answer of `remove(key)` are `RemoveByKey` |
| Int2ObjectBiMap.Int2ObjectBiMap.RemoveValue | src/main/java/io/github/shiruka/api/common/Int2ObjectBiMap.java:226-237 | the state and answer of `remove(value)` are `RemoveByValue` |
| Int2ObjectBiMap.PutFindsBoth | src/main/java/io/github/shiruka/api/common/Int2ObjectBiMap.java:136-197 | after `put(key, value)` each direction finds the other, as written or corrected |
| Int2ObjectBiMap.PutLeavesStaleReverse | src/main/java/io/github/shiruka/api/common/Int2ObjectBiMap.java:194-197 | putting a second value under a key leaves the first value mapped back to that key |
| Int2ObjectBiMap.PutCorrectedKeepsInverse | src/main/java/io/github/shiruka/api/common/Int2ObjectBiMap.java:194-197 | the corrected `put` keeps the two directions inverse |
| Int2ObjectBiMap.PutCorrectedAgreesOnFresh | src/main/java/io/github/shiruka/api/common/Int2ObjectBiMap.java:194-197 | for a new key and value the corrected `put` is the source's |
| Int2ObjectBiMap.RemoveKeyKeepsInverse | src/main/java/io/github/shiruka/api/common/Int2ObjectBiMap.java:206-217 | `remove(key)` keeps the two directions inverse and succeeds exactly when the key is present |
| Int2ObjectBiMap.RemoveValueLeavesStaleReverse | src/main/java/io/github/shiruka/api/common/Int2ObjectBiMap.java:226-237 | after `remove(value)` the value still maps back to its old key although the key is gone |
| Int2ObjectBiMap.RemoveValueCorrectedKeepsInverse | src/main/java/io/github/shiruka/api/common/Int2ObjectBiMap.java:226-237 | the corrected `remove(value)` keeps the directions inverse and succeeds exactly when the value is present |
| Int2ObjectBiMap.RemoveValueCorrectedIsRemoveKey | src/main/java/io/github/shiruka/api/common/Int2ObjectBiMap.java:206-237 | the corrected `remove(value)` is `remove(key)` of the value's key |
| MetadataStoreBase.ValuesAt | src/main/java/io/github/shiruka/api/metadata/MetadataStoreBase.java:50-57 | the values of a key are those of its plugins, none for an absent key |
| MetadataStoreBase.SetEntry | src/main/java/io/github/shiruka/api/metadata/MetadataStoreBase.java:99-108 | `setMetadata` keeps every entry non-empty |
| MetadataStoreBase.RemoveEntry | src/main/java/io/github/shiruka/api/metadata/MetadataStoreBase.java:84-96 | `removeMetadata` keeps every entry non-empty |
| MetadataStoreBase.RemovePlugin | src/main/java/io/github/shiruka/api/metadata/MetadataStoreBase.java:72-81 | after `removeAll(plugin)` every remaining key holds its old values without the plugin's, and a key is gone exactly when the plugin was its only one |
| MetadataStoreBase.EmptiedIff | src/main/java/io/github/shiruka/api/metadata/MetadataStoreBase.java:72-81 | an entry becomes empty after removing the plugin exactly when the plugin was its only one, or it was empty |
| MetadataStoreBase.MetadataStoreBase.constructor | src/main/java/io/github/shiruka/api/metadata/MetadataStoreBase.java:46 | a new store is empty |
| MetadataStoreBase.MetadataStoreBase.GetMetadata | src/main/java/io/github/shiruka/api/metadata/MetadataStoreBase.java:50-57 | the values stored under the disambiguated key, as `ValuesAt` collects them; none exactly when the store has no metadata for the subject and key |
| MetadataStoreBase.MetadataStoreBase.HasMetadata | src/main/java/io/github/shiruka/api/metadata/MetadataStoreBase.java:60-62 | `hasMetadata` holds exactly when `getMetadata` would return some value for the subject and key |
| MetadataStoreBase.HasIffValues | src/main/java/io/github/shiruka/api/metadata/MetadataStoreBase.java:50-62 | in a store whose entries are never empty, a key is present exactly when it holds some value |
| MetadataStoreBase.MetadataStoreBase.SetMetadata | src/main/java/io/github/shiruka/api/metadata/MetadataStoreBase.java:99-108 | the store after `setMetadata` is `SetEntry` under the disambiguated key; afterwards `hasMetadata` holds and `getMetadata` contains the value |
| MetadataStoreBase.MetadataStoreBase.RemoveMetadata | src/main/java/io/github/shiruka/api/metadata/MetadataStoreBase.java:84-96 | the store after `removeMetadata` is `RemoveEntry` under the disambiguated key |
| MetadataStoreBase.MetadataStoreBase.RemoveAll | src/main/java/io/github/shiruka/api/metadata/MetadataStoreBase.java:72-81 | the iterator loop gives `RemovePlugin` |
| MetadataStoreBase.RemovePluginNone | src/main/java/io/github/shiruka/api/metadata/MetadataStoreBase.java:72-81 | before the loop visits any key the store is unchanged |
| MetadataStoreBase.RemovePluginStep | src/main/java/io/github/shiruka/api/metadata/MetadataStoreBase.java:72-81 | one pass of the loop removes the plugin from one entry and drops the entry when it empties |
| MetadataStoreBase.RemovePluginValid | src/main/java/io/github/shiruka/api/metadata/MetadataStoreBase.java:72-81 | `removeAll` keeps every entry non-empty |
| MetadataStoreBase.SetThenGet | src/main/java/io/github/shiruka/api/metadata/MetadataStoreBase.java:99-108 | after `setMetadata` the key is present and holds the value |
| MetadataStoreBase.SetReplacesSamePlugin | src/main/java/io/github/shiruka/api/metadata/MetadataStoreBase.java:99-108 | a key holds at most one value per plugin: the one set last |
| MetadataStoreBase.SetLeavesOthers | src/main/java/io/github/shiruka/api/metadata/MetadataStoreBase.java:99-108 | `setMetadata` leaves the values of other keys and of other plugins |
| MetadataStoreBase.RemoveThenGet | src/main/java/io/github/shiruka/api/metadata/MetadataStoreBase.java:84-96 | after `removeMetadata` the key holds exactly its values from other plugins |
| MetadataStoreBase.SetThenRemove | src/main/java/io/github/shiruka/api/metadata/MetadataStoreBase.java:84-108 | setting a value for a new plugin and removing it again restores the store |
| MetadataStoreBase.RemoveAllThenGet | src/main/java/io/github/shiruka/api/metadata/MetadataStoreBase.java:72-81 | after `removeAll(plugin)` every key holds exactly its values from other plugins |
| ListTagBasic.Edit | src/main/java/io/github/shiruka/api/nbt/list/ListTagBasic.java:154-163 | `edit` takes the new tags, and the new type only when the list's type was END |
| ListTagBasic.AddTag | src/main/java/io/github/shiruka/api/nbt/list/ListTagBasic.java:47-58 | an END tag fails with the END error; a tag of another type than a typed list fails naming both types; a successful `add` appends the tag and the list takes the tag's type |
| ListTagBasic.RemoveAt | src/main/java/io/github/shiruka/api/nbt/list/ListTagBasic.java:90-92 | `remove` succeeds exactly within the list; out of range is an index error naming the index and the size; success keeps the type and shortens the list by one |
| ListTagBasic.SetAt | src/main/java/io/github/shiruka/api/nbt/list/ListTagBasic.java:95-97 | `set` succeeds exactly within the list, whatever the tag's type; out of range is an index error; success keeps the length and puts the tag at the index |
| ListTagBasic.SetAtCorrected | src/main/java/io/github/shiruka/api/nbt/list/ListTagBasic.java:95-97 | the corrected `set` succeeds exactly when `add` would accept the tag and the index is within the list, and then agrees with `set` as written |
| ListTagBasic.GetAt | src/main/java/io/github/shiruka/api/nbt/list/ListTagBasic.java:85-87 | `get` succeeds exactly within the list, with the tag at that index; out of range is an index error naming the index and the size |
| ListTagBasic.ListTagBasic.constructor | src/main/java/io/github/shiruka/api/nbt/list/ListTagBasic.java:41-44 | the list holds the given tags and type |
| ListTagBasic.ListTagBasic.All | src/main/java/io/github/shiruka/api/nbt/list/ListTagBasic.java:62-64 | `all()` lists exactly the tags `get` returns, index by index, and `get` fails just past its end |
| ListTagBasic.ListTagBasic.GetListType | src/main/java/io/github/shiruka/api/nbt/list/ListTagBasic.java:68-70 | once the list is typed, `add` accepts exactly the tags of `getListType()`; while it is END, `add` accepts every tag but END; every element of a well-formed list has this type |
| ListTagBasic.ListTagBasic.Contains | src/main/java/io/github/shiruka/api/nbt/list/ListTagBasic.java:79-81 | `contains(tag)` holds exactly when `get` returns the tag at some index; a tag a well-formed list contains has the list's type, which is not END |
| ListTagBasic.ListTagBasic.Get | src/main/java/io/github/shiruka/api/nbt/list/ListTagBasic.java:85-87 | `get` succeeds exactly within the list, with the tag at that index of `all()` |
| ListTagBasic.ListTagBasic.Add | src/main/java/io/github/shiruka/api/nbt/list/ListTagBasic.java:47-58 | the state and error after `add` are `AddTag` |
| ListTagBasic.ListTagBasic.Remove | src/main/java/io/github/shiruka/api/nbt/list/ListTagBasic.java:90-92 | the state and error after `remove` are `RemoveAt` |
| ListTagBasic.ListTagBasic.Set | src/main/java/io/github/shiruka/api/nbt/list/ListTagBasic.java:95-97 | the state and error after `set` are `SetAt` |
| ListTagBasic.ListTagBasic.EditWith | src/main/java/io/github/shiruka/api/nbt/list/ListTagBasic.java:154-163 | the state after `edit` is `Edit` |
| ListTagBasic.AddSucceedsIff | src/main/java/io/github/shiruka/api/nbt/list/ListTagBasic.java:47-58 | `add` succeeds exactly for a tag that is not END and matches the list's type (any type when the list's type is END) |
| ListTagBasic.AddKeepsTyped | src/main/java/io/github/shiruka/api/nbt/list/ListTagBasic.java:47-58 | `add` keeps every tag of the list's type |
| ListTagBasic.RemoveTakesOne | src/main/java/io/github/shiruka/api/nbt/list/ListTagBasic.java:90-92 | `remove` takes out exactly the tag at the index, keeps the others in order and keeps the type |
| ListTagBasic.RemoveKeepsTyped | src/main/java/io/github/shiruka/api/nbt/list/ListTagBasic.java:90-92 | `remove` keeps every tag of the list's type |
| ListTagBasic.SetBreaksTyped | src/main/java/io/github/shiruka/api/nbt/list/ListTagBasic.java:95-97 | `set` puts a STRING tag into an INT list |
| ListTagBasic.SetCorrectedKeepsTyped | src/main/java/io/github/shiruka/api/nbt/list/ListTagBasic.java:95-97 | the corrected `set` keeps every tag of the list's type |
| ListTagBasic.SetReplacesOne | src/main/java/io/github/shiruka/api/nbt/list/ListTagBasic.java:95-97 | `set` replaces exactly the tag at the index |
| ImageData.OfEmpty | src/main/java/net/shiruka/api/geometry/ImageData.java:94-97 | the empty image gives the shared empty image data |
| ImageData.Of | src/main/java/net/shiruka/api/geometry/ImageData.java:94-109 | `of(image)` accepts exactly the empty image and the four legacy skin sizes, keeping the bytes, with width times height times 4 equal to their length; any other length fails with "Invalid legacy skin" |
| ImageData.CheckLegacyCapeSize | src/main/java/net/shiruka/api/geometry/ImageData.java:131-134 | the cape check passes exactly when `of` accepts the bytes and the image is at most 64 by 32 pixels; otherwise it fails with "Invalid legacy cape" |
| ImageData.CheckLegacySkinSize | src/main/java/net/shiruka/api/geometry/ImageData.java:142-152 | the skin check passes exactly when the image is non-empty and `of` accepts its length; otherwise it fails with "Invalid legacy skin" |
| ImageData.OfPassesSkinCheck | src/main/java/net/shiruka/api/geometry/ImageData.java:142-152 | every non-empty image accepted by `of` passes `checkLegacySkinSize` |
| ImageData.CapeCheckOfIff | src/main/java/net/shiruka/api/geometry/ImageData.java:131-134 | image data from `of` passes `checkLegacyCapeSize` exactly when it is at most 64 by 32 |
| ImageData.SkinCheckRejectsEmpty | src/main/java/net/shiruka/api/geometry/ImageData.java:142-152 | the empty image fails `checkLegacySkinSize` with "Invalid legacy skin" |
| ServerDescription.Terminated | src/main/java/io/github/shiruka/api/server/ServerDescription.java:310-326 | the `StringJoiner` with separator and suffix ";" gives the fields joined by ";" and ended by ";" |
| ServerDescription.FieldsTerminated | src/main/java/io/github/shiruka/api/server/ServerDescription.java:310-326 | fields without ";" can be read back from the joined text |
| ServerDescription.ServerDescription.constructor | src/main/java/io/github/shiruka/api/server/ServerDescription.java:126-144 | the description holds every given field |
| ServerDescription.ServerDescription.GetExtras | src/main/java/io/github/shiruka/api/server/ServerDescription.java:190-192 | `getExtras()` gives the fields the packet writes after its twelve fixed ones, in the as-written and the corrected packet alike |
| ServerDescription.ServerDescription.SetExtras | src/main/java/io/github/shiruka/api/server/ServerDescription.java:199-201 | only the extras change; afterwards `getExtras()` and the packet's trailing fields are the given extras |
| ServerDescription.ServerDescription.SetDescription | src/main/java/io/github/shiruka/api/server/ServerDescription.java:161-163 | only the description changes |
| ServerDescription.ServerDescription.SetEdition | src/main/java/io/github/shiruka/api/server/ServerDescription.java:180-182 | only the edition changes |
| ServerDescription.ServerDescription.SetPlayerCount | src/main/java/io/github/shiruka/api/server/ServerDescription.java:254-256 | only the player count changes |
| ServerDescription.ServerDescription.SetSubDescription | src/main/java/io/github/shiruka/api/server/ServerDescription.java:291-293 | only the sub-description changes |
| ServerDescription.ServerDescription.PacketFields | src/main/java/io/github/shiruka/api/server/ServerDescription.java:310-326 | the packet has twelve fields then the extras; the third and fourth fields are both the protocol version |
| ServerDescription.ServerDescription.PacketFieldsCorrected | src/main/java/io/github/shiruka/api/server/ServerDescription.java:310-326 | the corrected packet has the version name as its fourth field |
| ServerDescription.ServerDescription.ToPacket | src/main/java/io/github/shiruka/api/server/ServerDescription.java:310-326 | the packet text ends with ";" |
| ServerDescription.ServerDescription.ToPacketCorrected | src/main/java/io/github/shiruka/api/server/ServerDescription.java:310-326 | the corrected packet text ends with ";" |
| ServerDescription.IntToStringPlain | src/main/java/io/github/shiruka/api/server/ServerDescription.java:310-326 | a number's decimal text holds no ";" |
| ServerDescription.NumbersPlain | src/main/java/io/github/shiruka/api/server/ServerDescription.java:310-326 | every numeric field of the packet holds no ";" |
| ServerDescription.PacketFieldsPlain | src/main/java/io/github/shiruka/api/server/ServerDescription.java:310-326 | when the text fields hold no ";", no field of the packet does |
| ServerDescription.PacketFieldsCorrectedPlain | src/main/java/io/github/shiruka/api/server/ServerDescription.java:310-326 | the same for the corrected packet |
| ServerDescription.ToPacketReadsBack | src/main/java/io/github/shiruka/api/server/ServerDescription.java:310-326 | the packet text splits back into exactly its fields |
| ServerDescription.VersionNameMissing | src/main/java/io/github/shiruka/api/server/ServerDescription.java:310-326 | the version name appears nowhere in the packet's fourth field unless it equals the protocol version's text |
| ServerDescription.VersionNameCorrected | src/main/java/io/github/shiruka/api/server/ServerDescription.java:310-326 | the corrected packet reads back with the version name as its fourth field |
| PermissionDefault.Names | src/main/java/net/shiruka/api/permission/PermissionDefault.java:40-43 | every constant has at least one name |
| PermissionDefault.PutNames | src/main/java/net/shiruka/api/permission/PermissionDefault.java:68-70 | putting a constant's names maps each of them to it and keeps the other entries |
| PermissionDefault.Normalize | src/main/java/net/shiruka/api/permission/PermissionDefault.java:90-92 | `toLowerCase` then `replaceAll("[^a-z!]", "")` leaves only letters a-z and "!", never more characters than given |
| PermissionDefault.GetByName | src/main/java/net/shiruka/api/permission/PermissionDefault.java:90-92 | `getByName` finds a constant exactly when the normalised name is in the cache, and the name is one of its names |
| PermissionDefault.GetValue | src/main/java/net/shiruka/api/permission/PermissionDefault.java:101-113 | TRUE is true, FALSE false, OP the operator flag and NOT_OP its negation |
| PermissionDefault.ToString | src/main/java/net/shiruka/api/permission/PermissionDefault.java:117-119 | the text is one of the constant's names |
| PermissionDefault.BuildCacheKeys | src/main/java/net/shiruka/api/permission/PermissionDefault.java:68-70 | the cache holds exactly the names of the constants |
| PermissionDefault.BuildCacheValue | src/main/java/net/shiruka/api/permission/PermissionDefault.java:68-70 | each name is cached under its constant |
| PermissionDefault.BuildCacheUntouched | src/main/java/net/shiruka/api/permission/PermissionDefault.java:68-70 | an entry no constant names is kept |
| PermissionDefault.BuildCacheOwned | src/main/java/net/shiruka/api/permission/PermissionDefault.java:68-70 | every cached name is a name of the constant it maps to |
| PermissionDefault.NameInitial | src/main/java/net/shiruka/api/permission/PermissionDefault.java:40-43 | the first character of a name tells its constant |
| PermissionDefault.NamesDisjoint | src/main/java/net/shiruka/api/permission/PermissionDefault.java:40-43 | no name belongs to two constants |
| PermissionDefault.CacheContents | src/main/java/net/shiruka/api/permission/PermissionDefault.java:68-70 | every name of a constant maps to that constant in the cache |
| PermissionDefault.CacheNames | src/main/java/net/shiruka/api/permission/PermissionDefault.java:68-70 | every cache key is a name of its constant |
| PermissionDefault.NormalizeNormal | src/main/java/net/shiruka/api/permission/PermissionDefault.java:90-92 | a name made of a-z and "!" is left as it is |
| PermissionDefault.NamesNormal | src/main/java/net/shiruka/api/permission/PermissionDefault.java:40-43 | every name is made of a-z and "!" |
| PermissionDefault.GetByNameOfName | src/main/java/net/shiruka/api/permission/PermissionDefault.java:90-92 | `getByName` of any name of a constant finds that constant |
| PermissionDefault.GetByNameToString | src/main/java/net/shiruka/api/permission/PermissionDefault.java:90-119 | `getByName(p.toString())` is `p` |
| PermissionDefault.NormalizeIdempotent | src/main/java/net/shiruka/api/permission/PermissionDefault.java:90-92 | normalising twice is normalising once |
| PermissionDefault.NotOpNegatesOp | src/main/java/net/shiruka/api/permission/PermissionDefault.java:101-113 | NOT_OP's value is always the negation of OP's |
| ChatColor.ToString | src/main/java/net/shiruka/api/text/ChatColor.java:165-168 | the text of a colour is two characters: the escape character, then the colour's own code character |
| ChatColor.CleanOnce | src/main/java/net/shiruka/api/text/ChatColor.java:191-197 | one pass of `replaceAll` never lengthens the text |
| ChatColor.HasCodeCons | src/main/java/net/shiruka/api/text/ChatColor.java:126 | a text holds a colour code exactly when it starts with one or its tail holds one |
| ChatColor.CleanOnceChangesIff | src/main/java/net/shiruka/api/text/ChatColor.java:191-197 | one pass changes the text exactly when it holds a colour code, and then shortens it |
| ChatColor.Clean | src/main/java/net/shiruka/api/text/ChatColor.java:191-197 | cleaning never lengthens the text |
| ChatColor.CleanRecursiveLeavesNoCode | src/main/java/net/shiruka/api/text/ChatColor.java:191-197 | recursive cleaning leaves no colour code |
| ChatColor.CleanWithoutCode | src/main/java/net/shiruka/api/text/ChatColor.java:191-197 | a text without colour codes is left as it is |
| ChatColor.CleanRecursiveIdempotent | src/main/java/net/shiruka/api/text/ChatColor.java:191-197 | recursive cleaning twice is cleaning once |
| ChatColor.OnePassCanLeaveCode | src/main/java/net/shiruka/api/text/ChatColor.java:178-197 | one pass can join two halves into a new colour code, which recursive cleaning removes |
| ChatColor.ToStringCleaned | src/main/java/net/shiruka/api/text/ChatColor.java:178-180 | cleaning a colour's text leaves nothing |
| ChatColor.FirstWithChar | src/main/java/net/shiruka/api/text/ChatColor.java:207-213 | the search finds a colour with the character exactly when there is one among the values |
| ChatColor.Of | src/main/java/net/shiruka/api/text/ChatColor.java:207-213 | `of(c)` is a colour with character `c`, or fails with "no color with character c" |
| ChatColor.AllInValues | src/main/java/net/shiruka/api/text/ChatColor.java:38-122 | every colour is among the values |
| ChatColor.FromColorChar | src/main/java/net/shiruka/api/text/ChatColor.java:38-122 | the character of a colour identifies it |
| ChatColor.OfColorChar | src/main/java/net/shiruka/api/text/ChatColor.java:207-213 | `of` of a colour's character is that colour |
| ChatColor.OfFailsIff | src/main/java/net/shiruka/api/text/ChatColor.java:207-213 | `of` fails exactly when no colour has the character |
| ChatColor.OfIsCaseSensitive | src/main/java/net/shiruka/api/text/ChatColor.java:126-213 | "A" is a colour code for `clean` but `of('A')` fails |
| Version.DigitsEnd | src/main/java/io/github/shiruka/api/version/Version.java:362-365 | the digit scan stops at the first non-digit or the end, and everything it passed is a digit |
| Version.IdentifierEnd | src/main/java/io/github/shiruka/api/version/Version.java:387-393 | the identifier scan stops at the first character outside [0-9A-Za-z-] or the end, and everything it passed is such a character |
| Version.NumberAt | src/main/java/io/github/shiruka/api/version/Version.java:361-377 | reading a number consumes exactly the run of digits, gives a value within int range, and fails with a parse error at the number's start or a `NumberFormatException` |
| Version.NumberAtIsParseInt | src/main/java/io/github/shiruka/api/version/Version.java:370-374 | once the leading-zero test passes, a number is read exactly when `Integer.parseInt` accepts the digit run, and its value is that of `parseInt` |
| Version.MetaState | src/main/java/io/github/shiruka/api/version/Version.java:386-407 | `stateMeta` never throws, adds only metadata identifiers, and keeps the error position when it accepts |
| Version.ReleaseState | src/main/java/io/github/shiruka/api/version/Version.java:478-502 | `stateRelease` never throws, leaves the numbers alone, and keeps the error position when it accepts |
| Version.PatchState | src/main/java/io/github/shiruka/api/version/Version.java:444-469 | `statePatch` writes only the patch number and, when it accepts, a non-negative int there |
| Version.MinorState | src/main/java/io/github/shiruka/api/version/Version.java:416-435 | `stateMinor` leaves the major number alone and, when it accepts, stores non-negative ints for minor and patch |
| Version.MajorState | src/main/java/io/github/shiruka/api/version/Version.java:361-377 | `stateMajor` accepts only with all three numbers non-negative ints |
| Version.ParseWith | src/main/java/io/github/shiruka/api/version/Version.java:344-354 | a parsed version has non-negative int major, minor and patch |
| Version.Parser.constructor | src/main/java/io/github/shiruka/api/version/Version.java:330-336 | a new parser holds the input, three zero version parts, no identifiers and error position 0 |
| Version.Parser.ScanDigits | src/main/java/io/github/shiruka/api/version/Version.java:362-365 | the scanning loop stops where `DigitsEnd` does |
| Version.Parser.ScanIdentifier | src/main/java/io/github/shiruka/api/version/Version.java:387-393 | the scanning loop stops where `IdentifierEnd` does |
| Version.Parser.ReadNumber | src/main/java/io/github/shiruka/api/version/Version.java:361-377 | reading a number as the Java code does gives `NumberAt` |
| Version.Parser.StateMeta | src/main/java/io/github/shiruka/api/version/Version.java:386-407 | the fields and the result after `stateMeta` are those of `MetaState` |
| Version.Parser.StateRelease | src/main/java/io/github/shiruka/api/version/Version.java:478-502 | the fields and the result after `stateRelease` are those of `ReleaseState` |
| Version.Parser.StatePatch | src/main/java/io/github/shiruka/api/version/Version.java:444-469 | the fields and the result or exception after `statePatch` are those of `PatchState` |
| Version.Parser.StateMinor | src/main/java/io/github/shiruka/api/version/Version.java:416-435 | the fields and the result or exception after `stateMinor` are those of `MinorState` |
| Version.Parser.StateMajor | src/main/java/io/github/shiruka/api/version/Version.java:361-377 | the fields and the result or exception after `stateMajor` are those of `MajorState` |
| Version.Parser.Parse | src/main/java/io/github/shiruka/api/version/Version.java:344-354 | `parse()` on a new parser gives `ParseVersion` of its input |
| Version.OfString | src/main/java/io/github/shiruka/api/version/Version.java:126-128 | `Version.of(String)` gives `ParseVersion` of the string |
| Version.Of | src/main/java/io/github/shiruka/api/version/Version.java:62-65 | `of(major, minor, patch, buildMeta, preRelease)` puts each argument in its field |
| Version.ParseVersion | src/main/java/io/github/shiruka/api/version/Version.java:126-128 | `of(String)` as written fails at offset 0 on an empty text or one that does not start with a digit, and a version it returns has numbers within 0 .. `Integer.MAX_VALUE` |
| Version.ParseCorrected | src/main/java/io/github/shiruka/api/version/Version.java:126-128 | the corrected parser fails the same way on such texts and returns versions whose numbers are within 0 .. `Integer.MAX_VALUE` |
| Version.Render | src/main/java/io/github/shiruka/api/version/Version.java:224-252 | `toString` begins with major, minor and patch separated by dots; it is just that exactly when there is neither pre-release nor metadata, and "-" follows for a pre-release, else "+" for metadata |
| Version.AppendJoined | src/main/java/io/github/shiruka/api/version/Version.java:231-250 | appending a marker and the dot-joined identifiers leaves the builder followed by the marker and the joined list |
| Version.ToString | src/main/java/io/github/shiruka/api/version/Version.java:224-252 | `toString` renders `major.minor.patch`, then `-` and the dot-joined pre-release, then `+` and the dot-joined build metadata, each only when present |
| VersionFindings.OneDigit | src/main/java/io/github/shiruka/api/version/Version.java:361-377 | a single digit followed by a non-digit or the end reads as that digit's value |
| VersionFindings.IdentifierToEnd | src/main/java/io/github/shiruka/api/version/Version.java:387-393 | an input whose rest is all identifier characters is scanned to the end |
| VersionFindings.LastIdentifier | src/main/java/io/github/shiruka/api/version/Version.java:478-502 | a final pre-release identifier is appended and the release state accepts |
| VersionFindings.MajorHandsOver | src/main/java/io/github/shiruka/api/version/Version.java:361-377 | after the major number and a `.` the parser continues in the minor state with the major stored |
| VersionFindings.MinorHandsOver | src/main/java/io/github/shiruka/api/version/Version.java:416-435 | after the minor number and a `.` the parser continues in the patch state with the minor stored |
| VersionFindings.PatchHandsOver | src/main/java/io/github/shiruka/api/version/Version.java:444-469 | after the patch number and a `-` the parser continues in the release state with the patch stored |
| VersionFindings.PatchEnds | src/main/java/io/github/shiruka/api/version/Version.java:444-469 | a patch number that ends the input is stored and accepted |
| VersionFindings.AlphaStates | src/main/java/io/github/shiruka/api/version/Version.java:361-502 | `1.0.0-` followed by a five-character identifier runs through all states to `1.0.0` with that one pre-release identifier |
| VersionFindings.PreReleaseLandsInBuildMeta | src/main/java/io/github/shiruka/api/version/Version.java:344-354 | as written `1.0.0-alpha` parses to a version whose build metadata, not pre-release, is `alpha` |
| VersionFindings.PreReleaseKeptWhenCorrected | src/main/java/io/github/shiruka/api/version/Version.java:62-65 | with the arguments in `of`'s order, `1.0.0-alpha` has pre-release `alpha` and no metadata |
| VersionFindings.LeadingZeroReadsFirstChar | src/main/java/io/github/shiruka/api/version/Version.java:425-428 | as written `0.10.0` is rejected at offset 2, because the minor state tests the input's first character for a leading zero |
| VersionFindings.LeadingZeroCorrected | src/main/java/io/github/shiruka/api/version/Version.java:416-435 | testing the number's own first character, `0.10.0` parses to 0.10.0 |
| VersionFindings.LeadingZeroMissed | src/main/java/io/github/shiruka/api/version/Version.java:416-435 | as written `1.01.0` is accepted as 1.1.0 despite the leading zero |
| VersionFindings.LeadingZeroRejectedWhenCorrected | src/main/java/io/github/shiruka/api/version/Version.java:416-435 | testing the number's own first character, `1.01.0` is rejected at offset 2 |
| VersionFindings.MissingBoundsCheck | src/main/java/io/github/shiruka/api/version/Version.java:373-376 | as written `1` and `1.2` index past the end of the input |
| VersionFindings.BoundsCheckedWhenCorrected | src/main/java/io/github/shiruka/api/version/Version.java:361-435 | with a bounds check, `1` and `1.2` are parse errors at offsets 1 and 3 |
| VersionGrammar.Then | src/main/java/io/github/shiruka/api/version/Version.java:386-502 | sequencing a state's own identifiers before a later state's result concatenates them and passes on a failure unchanged |
| VersionGrammar.MetaFrom | src/main/java/io/github/shiruka/api/version/Version.java:386-407 | the metadata grammar yields only metadata, or a parse error at or after its start |
| VersionGrammar.ReleaseFrom | src/main/java/io/github/shiruka/api/version/Version.java:478-502 | the pre-release grammar yields no numbers, or a parse error at or after its start |
| VersionGrammar.PatchFrom | src/main/java/io/github/shiruka/api/version/Version.java:444-469 | the patch grammar yields exactly one non-negative int |
| VersionGrammar.MinorFrom | src/main/java/io/github/shiruka/api/version/Version.java:416-435 | the minor grammar yields exactly two non-negative ints |
| VersionGrammar.MajorFrom | src/main/java/io/github/shiruka/api/version/Version.java:361-377 | the version grammar yields exactly three non-negative ints |
| VersionGrammar.MetaStateFollows | src/main/java/io/github/shiruka/api/version/Version.java:386-407 | `stateMeta` accepts exactly when the metadata grammar matches, appending what it yields, and records the grammar's error offset otherwise |
| VersionGrammar.ReleaseStateFollows | src/main/java/io/github/shiruka/api/version/Version.java:478-502 | `stateRelease` accepts exactly when the pre-release grammar matches, appending what it yields, and records its error offset otherwise |
| VersionGrammar.PatchStateFollows | src/main/java/io/github/shiruka/api/version/Version.java:444-469 | `statePatch` follows the patch grammar and stores its number in the patch slot |
| VersionGrammar.MinorStateFollows | src/main/java/io/github/shiruka/api/version/Version.java:416-435 | `stateMinor` follows the minor grammar and stores its numbers in the minor and patch slots |
| VersionGrammar.MajorStateFollows | src/main/java/io/github/shiruka/api/version/Version.java:361-377 | `stateMajor` on a new parser follows the version grammar and stores its three numbers |
| VersionGrammar.ParseFollows | src/main/java/io/github/shiruka/api/version/Version.java:344-354 | `parse` gives the grammar's error, or the version built from its numbers and identifiers, with pre-release and metadata swapped as written |
| VersionGrammar.MetaFromText | src/main/java/io/github/shiruka/api/version/Version.java:386-407 | accepted metadata is a non-empty list of identifiers whose dot-join is the rest of the input |
| VersionGrammar.ReleaseFromText | src/main/java/io/github/shiruka/api/version/Version.java:478-502 | an accepted pre-release is a non-empty list of identifiers that, dot-joined and followed by the metadata suffix, is the rest of the input |
| VersionGrammar.PatchFromText | src/main/java/io/github/shiruka/api/version/Version.java:444-469 | with the corrected leading-zero test, an accepted patch number re-renders as its digits and the suffix as the rest of the input |
| VersionGrammar.MinorFromText | src/main/java/io/github/shiruka/api/version/Version.java:416-435 | with the corrected leading-zero test, accepted minor and patch numbers and suffix re-render as the rest of the input |
| VersionGrammar.MajorFromText | src/main/java/io/github/shiruka/api/version/Version.java:361-377 | with the corrected parser, an accepted version's numbers and suffix re-render as the whole input |
| VersionGrammar.ParseCorrectedRenders | src/main/java/io/github/shiruka/api/version/Version.java:224-252 | every version the corrected parser accepts is well formed and `toString` gives back exactly the parsed text |
| VersionRoundTrip.MetaFromJoin | src/main/java/io/github/shiruka/api/version/Version.java:386-407 | dot-joined identifiers to the end of the input are read back by `stateMeta` as exactly that metadata list |
| VersionRoundTrip.ReleaseFromJoin | src/main/java/io/github/shiruka/api/version/Version.java:478-502 | dot-joined identifiers, then `+` and metadata when there is any, are read back by `stateRelease` as exactly those two lists |
| VersionRoundTrip.PatchFromRendered | src/main/java/io/github/shiruka/api/version/Version.java:444-469 | a canonical decimal int followed by the suffix `toString` writes for two identifier lists is read back by the corrected `statePatch` as that number and those lists |
| VersionRoundTrip.MinorFromRendered | src/main/java/io/github/shiruka/api/version/Version.java:416-435 | the minor and patch numbers as `toString` writes them, then the suffix, are read back by the corrected `stateMinor` |
| VersionRoundTrip.MajorFromRendered | src/main/java/io/github/shiruka/api/version/Version.java:361-377 | all three numbers and the suffix as `toString` writes them are read back by the corrected `stateMajor` |
| VersionRoundTrip.RenderParsesBack | src/main/java/io/github/shiruka/api/version/Version.java:344-354 | the corrected parser reads `toString` of every well-formed version back as that same version |
| VersionRoundTrip.RenderInjective | src/main/java/io/github/shiruka/api/version/Version.java:224-252 | two well-formed versions with the same `toString` text are equal |
| VersionOrder.Compare | src/main/java/io/github/shiruka/api/version/Version.java:131-167 | `compareTo` orders by major, then minor, then patch; with equal numbers a version without pre-release ranks above one with it, and two without are equal |
| VersionOrder.CompareTo | src/main/java/io/github/shiruka/api/version/Version.java:131-167 | the tag loop of `compareTo` computes `Compare` |
| VersionOrder.CompareTag | src/main/java/io/github/shiruka/api/version/Version.java:262-285 | an identifier `Integer.parseInt` accepts ranks below one it rejects; two accepted ones compare by value (equal exactly when the values are), two rejected ones are equal exactly when the texts are |
| VersionOrder.IsStable | src/main/java/io/github/shiruka/api/version/Version.java:207-209 | a stable version has a major above zero and ranks above every pre-release of the same numbers |
| VersionOrder.CompareIdentifiers | src/main/java/io/github/shiruka/api/version/Version.java:262-285 | the comparison of two identifiers under section 11.4 of Semantic Versioning 2.0.0 is a sign |
| VersionOrder.ComparePreRelease | src/main/java/io/github/shiruka/api/version/Version.java:155-166 | the comparison of two pre-release lists under section 11.4 is a sign |
| VersionOrder.Precedence | src/main/java/io/github/shiruka/api/version/Version.java:131-167 | precedence under section 11 of Semantic Versioning 2.0.0 is a sign |
| VersionOrder.ComparePreReleaseAntisymmetric | src/main/java/io/github/shiruka/api/version/Version.java:155-166 | swapping two pre-release lists negates their comparison |
| VersionOrder.PrecedenceAntisymmetric | src/main/java/io/github/shiruka/api/version/Version.java:131-167 | swapping two versions negates their precedence |
| VersionOrder.CompareTagAgrees | src/main/java/io/github/shiruka/api/version/Version.java:262-285 | where `Integer.parseInt` classifies identifiers as section 11 does, `comparePreReleaseTag` ranks numeric below alphanumeric and compares two numerics by value and two alphanumerics in ASCII order |
| VersionOrder.CompareTagsFromAgrees | src/main/java/io/github/shiruka/api/version/Version.java:155-166 | on such identifiers the tag loop has the sign of the section 11.4 list comparison, so a longer list extending a shorter one ranks higher |
| VersionOrder.CompareIsPrecedence | src/main/java/io/github/shiruka/api/version/Version.java:131-167 | on versions with int numbers and such identifiers, the sign of `compareTo` is precedence |
| VersionOrder.LongerPreReleaseRanksHigher | src/main/java/io/github/shiruka/api/version/Version.java:155-166 | with equal numbers, a pre-release list that extends another ranks above it |
| VersionOrder.IsUpdateFor | src/main/java/io/github/shiruka/api/version/Version.java:218-220 | `isUpdateFor` holds exactly when the version has higher precedence |
| VersionOrder.UpdateIsAsymmetric | src/main/java/io/github/shiruka/api/version/Version.java:218-220 | two versions are never updates for each other |
| VersionOrder.IsCompatibleUpdateFor | src/main/java/io/github/shiruka/api/version/Version.java:198-200 | `isCompatibleUpdateFor` holds exactly for an update with the same non-zero major number |
| VersionOrder.NegativeIdentifierMisordered | src/main/java/io/github/shiruka/api/version/Version.java:262-285 | `compareTo` puts `1.0.0--1` below `1.0.0-0` although precedence puts it above |
| VarInts.ZigZag | src/main/java/io/github/shiruka/api/nbt/VarInts.java:64-78 | the ZigZag value of an int fits in 32 bits and that of a long in 64 bits |
| VarInts.UnZigZagZigZag | src/main/java/io/github/shiruka/api/nbt/VarInts.java:24-27 | ZigZag decoding `(n >>> 1) ^ -(n & 1)` undoes encoding `(n << 1) ^ (n >> 31)` for every integer |
| VarInts.UnZigZagRange | src/main/java/io/github/shiruka/api/nbt/VarInts.java:38-41 | ZigZag decoding a 64-bit pattern gives a long |
| VarInts.GroupsMarked | src/main/java/io/github/shiruka/api/nbt/VarInts.java:121-131 | the encoding sets 0x80 on every byte except the last, and the last is below 0x80 |
| VarInts.GroupsLength | src/main/java/io/github/shiruka/api/nbt/VarInts.java:121-131 | a value below 128^k is written in at most k bytes |
| VarInts.EncodeUnsigned | src/main/java/io/github/shiruka/api/nbt/VarInts.java:121-131 | the loop writes the 7-bit groups of the value's unsigned bit pattern, least significant first |
| VarInts.Accumulate | src/main/java/io/github/shiruka/api/nbt/VarInts.java:101-111 | decoding consumes at least one and at most ten bytes and yields a value within the accumulator's width |
| VarInts.DecodeUnsigned | src/main/java/io/github/shiruka/api/nbt/VarInts.java:101-111 | the loop returns the `int` accumulator sign-extended, with the bytes read; it throws at the end of input or after ten bytes with 0x80 set |
| VarInts.GroupsValueGroups | src/main/java/io/github/shiruka/api/nbt/VarInts.java:121-131 | the groups, read as base-128 digits least significant first, are the encoded value |
| VarInts.AccumulateGroups | src/main/java/io/github/shiruka/api/nbt/VarInts.java:101-111 | decoding the groups of a value adds that value, shifted to where the groups start, to the accumulator |
| VarInts.AccumulateTooLarge | src/main/java/io/github/shiruka/api/nbt/VarInts.java:103-110 | ten bytes with 0x80 set make decoding throw `VarInt was too large` |
| VarInts.ReadIntSpec | src/main/java/io/github/shiruka/api/nbt/VarInts.java:24-27 | `readInt` gives an int |
| VarInts.ReadLongAsWritten | src/main/java/io/github/shiruka/api/nbt/VarInts.java:38-41 | `readLong` gives a long |
| VarInts.ReadLongCorrected | src/main/java/io/github/shiruka/api/nbt/VarInts.java:38-41 | `readLong` with a `long` accumulator gives a long |
| VarInts.ReadInt | src/main/java/io/github/shiruka/api/nbt/VarInts.java:24-27 | `readInt` ZigZag-decodes the 32-bit pattern of the decoded value |
| VarInts.ReadLong | src/main/java/io/github/shiruka/api/nbt/VarInts.java:38-41 | `readLong` ZigZag-decodes the 64-bit pattern of the sign-extended decoded `int` |
| VarInts.ReadUnsignedInt | src/main/java/io/github/shiruka/api/nbt/VarInts.java:52-54 | `readUnsignedInt` is the decoded value cast to `int` |
| VarInts.WriteInt | src/main/java/io/github/shiruka/api/nbt/VarInts.java:64-66 | `writeInt` writes the groups of the ZigZag value, at most five bytes |
| VarInts.WriteLong | src/main/java/io/github/shiruka/api/nbt/VarInts.java:76-78 | `writeLong` writes the groups of the ZigZag value, at most ten bytes |
| VarInts.WriteUnsignedInt | src/main/java/io/github/shiruka/api/nbt/VarInts.java:88-90 | `writeUnsignedInt` writes the groups of the long's unsigned bit pattern |
| VarInts.GroupsFit | src/main/java/io/github/shiruka/api/nbt/VarInts.java:101-131 | a value that fits the accumulator is written in at most five bytes, or ten for a long |
| VarInts.ReadBack | src/main/java/io/github/shiruka/api/nbt/VarInts.java:101-131 | decoding the encoding of a value that fits the accumulator gives the value and stops right after its bytes, whatever follows |
| VarInts.ReadIntWriteInt | src/main/java/io/github/shiruka/api/nbt/VarInts.java:24-66 | `readInt(writeInt(n)) == n` for every int, consuming exactly the bytes written |
| VarInts.ReadUnsignedWriteUnsigned | src/main/java/io/github/shiruka/api/nbt/VarInts.java:52-90 | `readUnsignedInt(writeUnsignedInt(n)) == n` for every non-negative int |
| VarInts.ReadLongWriteLongSmall | src/main/java/io/github/shiruka/api/nbt/VarInts.java:38-78 | `readLong(writeLong(n)) == n` for every n in [-2^30, 2^30) |
| VarInts.ReadLongLosesHighBits | src/main/java/io/github/shiruka/api/nbt/VarInts.java:101-105 | as written, `readLong(writeLong(2^30))` is 0x7FFFFFFFC0000000, because the `int` accumulator's bit 31 is sign-extended |
| VarInts.ReadLongCorrectedWriteLong | src/main/java/io/github/shiruka/api/nbt/VarInts.java:38-78 | with a `long` accumulator, `readLong(writeLong(n)) == n` for every long |
| PluginDescriptionFile.NameOf | src/main/java/net/shiruka/api/plugin/PluginDescriptionFile.java:351-362 | a null or absent name fails with `name is not defined`; an accepted name matches `^[A-Za-z0-9 _.-]+$` |
| PluginDescriptionFile.VersionOf | src/main/java/net/shiruka/api/plugin/PluginDescriptionFile.java:364-371 | the version step succeeds exactly when a version is present, with the value's text |
| PluginDescriptionFile.MainOf | src/main/java/net/shiruka/api/plugin/PluginDescriptionFile.java:372-382 | an accepted main class is never inside the `net.shiruka` package |
| PluginDescriptionFile.CommandOf | src/main/java/net/shiruka/api/plugin/PluginDescriptionFile.java:387-396 | one command's settings: a null value is an uncaught `NullPointerException`; any other non-map value, or a key that is not a string, is "commands are of wrong type"; accepted settings come from a map with string keys |
| PluginDescriptionFile.CommandTable | src/main/java/net/shiruka/api/plugin/PluginDescriptionFile.java:386-398 | the commands table fails only with a `NullPointerException` or "commands are of wrong type", and every name in an accepted table is a string |
| PluginDescriptionFile.CommandsOf | src/main/java/net/shiruka/api/plugin/PluginDescriptionFile.java:383-402 | without a `commands` key the commands table is empty |
| PluginDescriptionFile.TextOr | src/main/java/net/shiruka/api/plugin/PluginDescriptionFile.java:403-405 | an absent key reads as the empty text, and only a null value fails |
| PluginDescriptionFile.ContributorsOf | src/main/java/net/shiruka/api/plugin/PluginDescriptionFile.java:406-414 | absent contributors are the empty list; a null value or a null item is an uncaught `NullPointerException`; accepted contributors are the items' texts, one per item |
| PluginDescriptionFile.AuthorsOf | src/main/java/net/shiruka/api/plugin/PluginDescriptionFile.java:415-425 | absent authors are the empty list; every failure is an `InvalidDescriptionException`, exactly for a value that is not a list or a list with a null item; accepted authors are the items' texts, one per item |
| PluginDescriptionFile.LoadOf | src/main/java/net/shiruka/api/plugin/PluginDescriptionFile.java:426-437 | without `load` the order is `POST_WORLD`; an accepted `load` is a string whose upper-cased word characters name a known order; a null `load` is an uncaught `NullPointerException` |
| PluginDescriptionFile.PluginNameList | src/main/java/net/shiruka/api/plugin/PluginDescriptionFile.java:476-491 | `makePluginNameList` fails only with an `InvalidDescriptionException`, and no accepted name contains a space |
| PluginDescriptionFile.KeepWordChars | src/main/java/net/shiruka/api/plugin/PluginDescriptionFile.java:430-432 | dropping the non-word characters leaves only `\w` characters and never lengthens the text |
| PluginDescriptionFile.DefaultPermissionOf | src/main/java/net/shiruka/api/plugin/PluginDescriptionFile.java:442-452 | an absent or null `default-permission` gives `OP` |
| PluginDescriptionFile.PermissionsOf | src/main/java/net/shiruka/api/plugin/PluginDescriptionFile.java:453-458 | the permissions handed on are a map or null |
| PluginDescriptionFile.ToStrings | src/main/java/net/shiruka/api/plugin/PluginDescriptionFile.java:406-426 | the loop over the items gives their texts, or stops at the first null |
| PluginDescriptionFile.MakePluginNameList | src/main/java/net/shiruka/api/plugin/PluginDescriptionFile.java:476-491 | the loop computes `makePluginNameList` as `PluginNameList` states it |
| PluginDescriptionFile.Init | src/main/java/net/shiruka/api/plugin/PluginDescriptionFile.java:350-463 | `init(map)` takes the steps in the source's order and the first failure decides the error |
| PluginDescriptionFile.Describe | src/main/java/net/shiruka/api/plugin/PluginDescriptionFile.java:350-463 | a description `init` accepts has a valid name, a main class outside `net.shiruka`, the order `POST_WORLD` or a known one, and permissions that are a map or null |
| PluginDescriptionFile.GetFullName | src/main/java/net/shiruka/api/plugin/PluginDescriptionFile.java:529-531 | the full name is as long as the name, ` v` and the version together |
| PluginDescriptionFile.DescribeSuccess | src/main/java/net/shiruka/api/plugin/PluginDescriptionFile.java:350-463 | a successful `init` succeeded at every step, and each field of the description is that step's value |
| PluginDescriptionFile.NameMissing | src/main/java/net/shiruka/api/plugin/PluginDescriptionFile.java:353-359 | a missing name makes `init` fail with `name is not defined` |
| PluginDescriptionFile.NameInvalid | src/main/java/net/shiruka/api/plugin/PluginDescriptionFile.java:354-356 | a name outside `^[A-Za-z0-9 _.-]+$` makes `init` fail, quoting the name |
| PluginDescriptionFile.NameSpacesReplaced | src/main/java/net/shiruka/api/plugin/PluginDescriptionFile.java:357 | an accepted name is valid, has no spaces left, and differs from the raw name only where the raw name had a space (now `_`) |
| PluginDescriptionFile.MainNamespaceRejected | src/main/java/net/shiruka/api/plugin/PluginDescriptionFile.java:374-377 | once name, provides and version pass, a main class in `net.shiruka` makes `init` fail with the namespace message |
| PluginDescriptionFile.MainAccepted | src/main/java/net/shiruka/api/plugin/PluginDescriptionFile.java:372-377 | a description's main class is the map's `main` text and is outside `net.shiruka` |
| PluginDescriptionFile.LoadOrder | src/main/java/net/shiruka/api/plugin/PluginDescriptionFile.java:427-438 | without `load` the order is `POST_WORLD`; with it, the order is the upper-cased value stripped of non-word characters and is a known order |
| PluginDescriptionFile.LoadUnknownFails | src/main/java/net/shiruka/api/plugin/PluginDescriptionFile.java:430-436 | a `load` text that names no order makes `init` fail |
| PluginDescriptionFile.LoadUnderscoreKept | src/main/java/net/shiruka/api/plugin/PluginDescriptionFile.java:430-432 | `post_world` names `POST_WORLD`: the underscore is a word character and survives |
| PluginDescriptionFile.KeepWordCharsAppend | src/main/java/net/shiruka/api/plugin/PluginDescriptionFile.java:432 | dropping non-word characters distributes over concatenation |
| PluginDescriptionFile.KeepWordCharsAll | src/main/java/net/shiruka/api/plugin/PluginDescriptionFile.java:432 | a text of word characters only is kept whole |
| PluginDescriptionFile.DefaultPermissionFallback | src/main/java/net/shiruka/api/plugin/PluginDescriptionFile.java:442-452 | the default permission is `OP` when absent or unknown, and otherwise the constant `getByName` finds |
| PluginDescriptionFile.DefaultPermissionByName | src/main/java/net/shiruka/api/plugin/PluginDescriptionFile.java:446 | each alias of a permission default selects that default |
| PluginDescriptionFile.PluginNameListContents | src/main/java/net/shiruka/api/plugin/PluginDescriptionFile.java:476-491 | an absent key gives the empty list; otherwise each entry is the item's text with spaces made `_`, one per item |
| PluginDescriptionFile.PluginNameListErrors | src/main/java/net/shiruka/api/plugin/PluginDescriptionFile.java:476-491 | a null list or a null item fails with `invalid <key> format`, and a value that is not a list with `<key> is of wrong type` |
| PluginDescriptionFile.CommandTableKeys | src/main/java/net/shiruka/api/plugin/PluginDescriptionFile.java:386-398 | the accepted commands table has exactly the command names of the map, each a string with a map of values |
| PluginDescriptionFile.FullNameSplits | src/main/java/net/shiruka/api/plugin/PluginDescriptionFile.java:529-531 | the full name is the name, then ` v`, then the version |
| PluginDescriptionFile.FullNameReadsBack | src/main/java/net/shiruka/api/plugin/PluginDescriptionFile.java:529-531 | for a description `init` built, the name ends at the first space of the full name, so name and version can be read back |

## Left out

- Recursion on the command tree is bounded by a `fuel` parameter. This covers `parseNodes`, `addChild`, `register`, the usage renderers and the chains of default nodes. With enough fuel the model does what the Java does. Where a cycle of redirects or default nodes would make the Java recurse until the stack overflows, the model stops when the fuel runs out.
- CommandDispatcher.Skipped: keeps the cursor at the end of the input. `reader.skip()` at CommandDispatcher.java:219 moves it one past the end when nothing is left but the child has a default node. Ranges recorded after such a skip therefore start one position earlier in the model.
- `CommandDispatcher.getCompletionSuggestions` is not modelled: it is `CompletableFuture` plumbing. The pieces it combines are modelled: `findSuggestionContext`, `LiteralNode.suggestions`, the string argument's term completions and `Suggestions.merge`.
- `CommandDispatcher.getPath`/`addPaths`, `getRoot` and the result-consumer getter and setter are not modelled. `execute` does not call the `ResultConsumer` listener, which has no effect on the result.
- `register(LiteralBuilder...)` and `unregister(CommandNode...)` are not modelled. Registration works on nodes already in the graph, and unregistration works by name. `execute(String, sender)` is `execute(TextReader, sender)` on a new reader, so only the reader form is modelled.
- Commands and redirect modifiers are callbacks the model cannot see. They are parameters of `execute`: `run` gives the count or the syntax exception, and `apply` gives the senders or the exception.
- `CommandContextBuilder.build(input)` and `CommandContext` are not modelled. Execution works on the builder's state directly, and `copyFor` replaces the sender.
- The `errors` `LinkedHashMap` of `parseNodes` is a sequence of (node, exception) pairs in insertion order. Each child is visited once, so no key is ever replaced.
- Requirements (`Predicate<CommandSender>`) are functions of the sender. Command, redirect and modifier objects are ids.
- JavaText: a character of the model is a Unicode scalar value, whereas a Java `String` is a sequence of UTF-16 code units. Lengths, cursor positions, `TextRange`s, suggestion ranges, the last ten characters of a syntax error's context and the order of `String.compareTo` therefore agree with Java only on text inside the Basic Multilingual Plane. Outside it they differ: Java counts "😀" as two chars and puts "\uFFFF" after it, while the model counts one character and puts "\uFFFF" before it. That order feeds the sorted completions of terms, the order of a node's children and `Suggestion.CompareTo`.
- JavaText.ToLower: folds ASCII letters only. Java's `toLowerCase`/`toUpperCase` also map other Unicode letters. The same holds for `compareToIgnoreCase` and the lower-cased literal names.
- JavaText.ParseInt: accepts ASCII digits only. `Integer.parseInt` also accepts other Unicode decimal digits.
- VarInts: bytes are values 0..255, and the streams are sequences. `IOException`s other than the end of input are left out. Java's `long`/`int` bit operations are written as unsigned arithmetic on the bit pattern rather than as bit-vectors.
- MetadataStoreBase: `invalidateAll` is not modelled, because `MetadataValue.invalidate` is not part of this model. The `WeakHashMap` keys (garbage collection of subjects) and the `synchronized` blocks are left out too.
- Int2ObjectBiMap.RemoveByValue: models `backwards.removeInt(oldValue)` as removing nothing. This is exact unless the value type is `Integer` and the old key happens to be a stored value.
- `Version.hasBuildMeta` and `Version.hasPreRelease` are list membership tests and are not modelled. The `of(major[, minor[, patch]])` overloads are `Of` with zeros and empty lists, and are not modelled separately.
- ServerDescription: the `GameMode` enum is not part of this model. Its name and id are fields of the description.
- PluginDescriptionFile: the YAML reader, `init(InputStream)`, `save` and `Permission.loadPermissions` (a global permission registry) are not modelled. `init` hands the permissions map on unread. A present `permissions` key whose value is null is handed on as `YNull`; the source passes that null to `Permission.loadPermissions` (PluginDescriptionFile.java:459), whose `data.forEach` would throw a `NullPointerException`, so the model accepts descriptions that `init` rejects there. The load orders are a set of constant names.
- ImageData and ServerDescription copy their arrays defensively (`clone()`). In the model these are sequences, which are values, so the copies need no modelling.
- ListTagBasic: the constructor keeps `Collections.unmodifiableList(original)` (ListTagBasic.java:42), a view of the caller's list rather than a copy, and `all()` (ListTagBasic.java:62-64) returns a view as well. Until the first `edit` installs its own copy (ListTagBasic.java:155-162), changes the caller makes to its list show through the tag. The model holds the tags as a sequence value, so it does not capture this aliasing: its `ListTagBasic.ListTagBasic.constructor` behaves as if the list were copied.
- Suggestions.SortIgnoreCase: promises an order only when the suggestions are all integer ones or all plain ones. With both kinds `compareToIgnoreCase` is not transitive (9 before 10, 10 before "5", "5" before 9, see `Suggestions.MixedNotTransitive`), so `List.sort` may throw or return any order; the model then promises only a permutation. As written this never arises in `create`, whose expanded suggestions are all plain; it holds for `Suggestions.CreateCorrected` and `Suggestions.Builder.BuildCorrected`. `TextRange` has no `equals` or `hashCode`, so `Suggestion.equals` compares ranges by identity. The model's ranges are values; what identity decides in `create` is carried by `Expand`'s `sameObject` argument, which `create` as written sets to false because its range is a new object. Every suggestion `create` puts in its `HashSet` is then a plain `Suggestion` over that one range object, so equality there is equality of text and tooltip, which is what value equality gives on them. Elsewhere, for example in the `HashBigSet` of `merge`, identity is not modelled. There two suggestions with equal ends and text stay distinct, while value equality merges them; `create` merges them afterwards anyway, so the result is the same.
- ServerDescription.ServerDescription.ToPacket: returns the joined text. The final `getBytes(StandardCharsets.UTF_8)` at ServerDescription.java:325 is not modelled. UTF-8 encoding is injective, so the read-back lemmas carry over to the bytes.
- PluginDescriptionFile.Yaml: has no floating-point scalar, because `Double.toString` is not modelled. A float in `plugin.yml`, such as `version: 1.10`, becomes a string field through `toString()` ("1.1" there), so such files are outside the model's inputs.
- Concurrency is left out: the `AtomicReference`s of `parseNodes` are plain locals, and no class is shared between threads.

## Findings

| source | as written | input that shows it | evidently intended | confidence | as-written member | corrected member |
|---|---|---|---|---|---|---|
| src/main/java/net/shiruka/api/command/tree/CommandNodeEnvelope.java:182-183 | merging a node into an existing child of the same name sets the child's command to the new node's, even when that is null | a child `child` with a command, then `addChild(literal("child"))` without one: the child loses its command | a node without a command keeps the existing command (the "preserves command" case of the node tests) | not executed; high | CommandNodeEnvelope.AddChildDropsCommand | CommandNodeEnvelope.MergeCommandCorrectedKeeps |
| src/main/java/net/shiruka/api/command/tree/CommandNodeEnvelope.java:262-267 | any two non-literal nodes compare as -1 both ways | two argument nodes `a`, `b`: `a.compareTo(b) == b.compareTo(a) == -1` | a total order: literals first, nodes of the same kind by key | not executed; medium | CommandNodeEnvelope.CompareNodesNotAntisymmetric | CommandNodeEnvelope.CompareNodesCorrectedOrder |
| src/main/java/io/github/shiruka/api/version/Version.java:348-353 | `parse` passes the pre-release parts where `of` expects build metadata, and the metadata where it expects the pre-release | `1.0.0-alpha` parses with build metadata `alpha` and no pre-release | `1.0.0-alpha` has pre-release `alpha` | not executed; high | VersionFindings.PreReleaseLandsInBuildMeta | VersionFindings.PreReleaseKeptWhenCorrected |
| src/main/java/io/github/shiruka/api/version/Version.java:425 | the leading-zero test of the minor and patch numbers looks at the first character of the whole input | `0.10.0` is rejected; `1.01.0` is accepted as 1.1.0 | test the number's own first character | not executed; high | VersionFindings.LeadingZeroReadsFirstChar | VersionFindings.LeadingZeroCorrected |
| src/main/java/io/github/shiruka/api/version/Version.java:373 | the major and minor states read the character after the number without a bounds check | `1` and `1.2` throw `ArrayIndexOutOfBoundsException` instead of `ParseException` | a `ParseException` at the end of the input | not executed; high | VersionFindings.MissingBoundsCheck | VersionFindings.BoundsCheckedWhenCorrected |
| src/main/java/io/github/shiruka/api/version/Version.java:262-285 | a pre-release identifier counts as numeric when `Integer.parseInt` accepts it, so signed ones count | `1.0.0--1` ranks below `1.0.0-0` | `-1` is alphanumeric under section 11.4.3 of Semantic Versioning 2.0.0 and ranks above `0` | not executed; medium | VersionOrder.NegativeIdentifierMisordered | VersionOrder.CompareIsPrecedence |
| src/main/java/io/github/shiruka/api/nbt/VarInts.java:102-105 | `decodeUnsigned` accumulates into an `int`, and `readLong` widens it with sign extension | `readLong(writeLong(2^30))` is 0x7FFFFFFFC0000000 | a `long` accumulator, so that every long reads back as itself | not executed; high | VarInts.ReadLongLosesHighBits | VarInts.ReadLongCorrectedWriteLong |
| src/main/java/io/github/shiruka/api/common/Int2ObjectBiMap.java:194-197 | `put` does not remove the reverse entry of a key's previous value | `put(1, a)` then `put(1, b)`: `get(a)` is still 1 | the two directions stay inverse | not executed; high | Int2ObjectBiMap.PutLeavesStaleReverse | Int2ObjectBiMap.PutCorrectedKeepsInverse |
| src/main/java/io/github/shiruka/api/common/Int2ObjectBiMap.java:226-237 | `remove(value)` removes the reverse entry by the int key instead of by the value | from `{1 <-> a}`, `remove(a)`: key 1 is gone but `a` still maps to 1 | both directions lose the pair | not executed; high | Int2ObjectBiMap.RemoveValueLeavesStaleReverse | Int2ObjectBiMap.RemoveValueCorrectedKeepsInverse |
| src/main/java/io/github/shiruka/api/nbt/list/ListTagBasic.java:95-97 | `set` replaces an element without the type checks of `add` | `set(0, stringTag)` on a list of type INT holding one INT tag | `set` rejects what `add` rejects | not executed; medium | ListTagBasic.SetBreaksTyped | ListTagBasic.SetCorrectedKeepsTyped |
| src/main/java/net/shiruka/api/command/suggestion/Suggestion.java:153 | `expand` tests `range.equals(this.range)`, but `TextRange` has no `equals`, and `create` always passes a new range, so every suggestion becomes a plain `Suggestion` and integer suggestions are sorted by text | `builder.suggest(9).suggest(10).build()` lists "10" before "9"; integer 5 and text "5" become one entry | ranges compared by their ends, so integer suggestions keep their values and sort by value, as the numeric sorting tests of the builder expect | not executed; medium | Suggestions.BuildNineTen | Suggestions.Builder.BuildCorrected |
| src/main/java/io/github/shiruka/api/server/ServerDescription.java:314-315 | `toPacket` writes the protocol version twice and never the version name | any description whose version name is not the text of its protocol version | the fourth field is the version name, which the class stores but `toPacket` never writes | not executed; medium | ServerDescription.VersionNameMissing | ServerDescription.VersionNameCorrected |
