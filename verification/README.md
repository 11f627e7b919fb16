# edn.js reader and writer in Dafny

This project models the two halves of `edn.js`, a small EDN library:

- `parseEdn(text, tagTransformers)` reads EDN text into host values. Lists and
  vectors become arrays that carry an `$ednType$` marker. Sets become sets and
  maps become objects. Symbols, keywords, characters and strings all become
  plain strings. A tag on a collection is recorded in `$ednTag$`. A tag with a
  transformer replaces the value it tags.
- `stringifyEdn(obj)` prints numbers, strings, arrays, sets and objects back as
  EDN text. It refuses to visit the same collection twice.

Host objects have identity, and the reader relies on it. An open collection
is mutated while it is read. The one pending map key is shared by every open
map, and it can hold a collection that is still open. A set deduplicates
collections by identity. To keep this identity, every collection lives in an
arena (`EdnValue.Heap`, a sequence of `Coll`) and a value refers to one with
`Ref(id)`. Collection 0 is the root list that `parseEdn` returns.

Modules:

- `EdnValue`: values, collections, errors, the call's configuration, the tag
  table with the built-in `inst` under the user's tags, and the decimal text of
  integers.
- `EdnLexer`: the recognizer. It finds the next form of the remaining text and
  the number of characters it takes. That count includes the separators that
  follow the form. The regular expressions of `edn.js:9-34` are written out as
  character classes and run lengths. A lemma per pattern states what it
  matches. The patterns are tried in the code's order: brackets, string,
  character, `nil`/`false`/`true`, float, integer, symbol, keyword, line
  comment, tag. Lemmas pin down the order where one pattern could shadow
  another, and "cannot parse" is raised exactly when no pattern matches.
- `EdnBuilder`: the reader's state as pure functions. The state holds the
  collections, the stack of open collections, the pending tag and the pending
  map key. `pushTree`, `popStack`, one step of the main loop, the loop and
  `parseEdn` are each a function here. Lemmas state how tags, comments,
  closers, maps, sets and leading separators behave. An invariant says that no
  set holds a value twice and no map holds a key twice.
- `EdnReader`: the reader as the code runs it. A `Parser` object holds the
  state that `parseEdn`'s closures share, and its methods update it in place.
  Each method is proved to compute its `EdnBuilder` function.
- `EdnWriter`: `stringify` as a pure specification (`Render`) and as a
  `Writer` object. The object appends to `result` and grows `seen` as the code
  does. The methods are proved to agree with the specification. Lemmas prove
  two things. A collection that reaches itself through the collections it
  holds is rejected, however long the cycle. So is a collection that holds the
  same collection twice.
- `EdnRoundTrip`: reading back what the writer prints. Take a list, vector or
  set of integers and plain strings. The writer's text reads back as that
  collection's elements in order. A map whose keys and values are plain
  strings or integers reads back as the same map. Top-level forms read into the
  root list. Any separators between the elements give the same result.

The host's `unescape` and the tag transformers are parameters (`Config`).
The host's `Date` is not modelled.

The code is followed where it and the library's description differ:

- Collections still open at the end of the text are returned as they are;
  there is no error.
- A tag on a number is accepted. The "no tags for Float/Integer" checks can
  never fire, because `pushTree` has already cleared the tag.
- The `\c` check compares against a two-character string that the character
  pattern can never capture. `\c` is therefore an unknown character name like
  any other.
- A primitive with an unregistered tag silently drops the tag.
- A line comment at the very end of the text, without a line feed, does not
  match the comment pattern. It raises "cannot parse".
- A stray `)` at top level closes the root list. One more value is then kept
  as the pending key and lost, and a second one fails.

## Model

| member | source | states |
|---|---|---|
| EdnValue.MergeTransformers | edn.js:37-40 | the tag table holds `inst` and every user tag; a user entry wins over the built-in one |
| EdnValue.NatText | edn.js:274 | the decimal text of a natural number is non-empty, all digits, and has no leading zero |
| EdnLexer.SepRun | edn.js:101 | the separators at the head of the text: all of them are space, tab, CR, LF or comma, and the next character is not |
| EdnLexer.AlnumRun | edn.js:34 | the run of letters and digits after a backslash, and it ends at the first other character |
| EdnLexer.SymbolLen | edn.js:13 | a symbol matches exactly when a symbol name starts the text; `SymbolMatches` states its extent |
| EdnLexer.TagNameLen | edn.js:15 | a tag name matches exactly when a tag part starts the text; `TagNameMatches` states its extent |
| EdnLexer.IntPartLen | edn.js:17 | a matched integer part is the optional sign and then digits only; `IntPartMatches` states its extent |
| EdnLexer.IntegerLen | edn.js:17 | an integer matches exactly when an integer part starts the text, and it covers that part; `IntegerMatches` states its extent |
| EdnLexer.FloatLen | edn.js:28 | a float starts with an integer part and extends past it; `FloatMatches` states its extent |
| EdnLexer.StringEnd | edn.js:30 | a found end of a string body is a double quote inside the text; `StringEndMatches` says which quote |
| EdnLexer.SymbolMatches | edn.js:13 | a symbol starts as a name starts, takes every symbol character it can, and holds at most one `/`, which ends the namespace and is followed by a name; the namespace is taken whenever a name follows its `/` |
| EdnLexer.TagPartMatches | edn.js:15 | a tag part is empty exactly when neither alternative applies; a sign or dot takes exactly one more non-digit symbol character; a start character takes every symbol character after it |
| EdnLexer.TagNameMatches | edn.js:15 | a tag name is a letter namespace, `/` and a tag part whenever a tag part follows the `/`, and otherwise the tag part alone |
| EdnLexer.IntPartMatches | edn.js:17 | an optional sign; empty exactly when no digit follows it; a leading `0` stands alone; any other digit takes every digit after it |
| EdnLexer.IntegerMatches | edn.js:17 | an integer is its integer part, plus the `N` exactly when one follows |
| EdnLexer.FracExpMatches | edn.js:28 | after the integer part a float needs a dot and a digit or an exponent; a fraction takes every digit, an exponent follows it exactly when one can, and otherwise the exponent stands alone |
| EdnLexer.FloatMatches | edn.js:28 | a float matches exactly when an integer part and a fraction or exponent follow each other, and it takes an `M` exactly when one follows |
| EdnLexer.StringEndMatches | edn.js:30 | the quote at `e` ends the string exactly when the text before it is a string body: plain characters and backslash escapes of any non-line-terminator |
| EdnLexer.CharLiteral | edn.js:188-196 | a character name is read exactly when it is in the table or contains `u` and four upper-case hex digits; a table name gives its character, any other gives `unescape("%" + name)`; otherwise it raises an invalid character literal |
| EdnLexer.NewlineFrom | edn.js:32 | the first line feed at or after a position, with no line feed before it; none when the rest has no line feed |
| EdnLexer.Lex | edn.js:102-264 | a successful token takes at least one character and all separators after it; an error is "cannot parse" on the remaining text or an invalid character literal; scalars never refer to collections |
| EdnLexer.LexLiteral | edn.js:176-200 | a literal takes at least one character and the separators after it; it is a scalar, comment or tag, and fails only with "cannot parse" or an invalid character |
| EdnLexer.LexWord | edn.js:201-218 | a word is a scalar, comment or tag, never a collection; it fails only with "cannot parse" |
| EdnLexer.LexNumber | edn.js:219-236 | a number token's value is an integer, a float or a name; it fails only with "cannot parse" |
| EdnLexer.LexName | edn.js:237-264 | a name token is a symbol or keyword string, a comment or a tag; it fails only with "cannot parse" |
| EdnLexer.UnmatchedTextCannotParse | edn.js:102-264 | "cannot parse" is raised exactly when none of the patterns matches at the head of the text |
| EdnLexer.TagsAreTagMarks | edn.js:254-261 | `#` and a tag name read as a tag with exactly that name, however the text goes on |
| EdnLexer.WordsNeedABoundary | edn.js:9-11 | `nil`, `false` and `true` not followed by a symbol character read as nil and the booleans |
| EdnLexer.OnlyWordsAreLiterals | edn.js:201-218 | nil or a boolean is read only from the bare word, never from a longer symbol |
| EdnLexer.NilPrefixIsASymbol | edn.js:11-13 | `nil` followed by a symbol character (as in `nilly`) reads as a symbol of the whole name |
| EdnLexer.DigitsAreNumbers | edn.js:219-236 | text starting with a digit always reads as a number: a float with its literal text when the float pattern matches, an integer otherwise |
| EdnLexer.CharacterLiterals | edn.js:182-199 | a backslash and letters or digits read as the character `CharLiteral` gives, or raise its error |
| EdnLexer.BackslashCIsInvalid | edn.js:184-195 | `\c` raises "invalid character literal" like any unknown name |
| EdnLexer.NamedCharacters | edn.js:188-193 | `newline`, `return`, `space` and `tab` read as their characters, and a name with `u` and four hex digits goes through `unescape("%" + name)` |
| EdnLexer.KeywordDropsColon | edn.js:243-248 | a keyword reads as its name without the colon |
| EdnLexer.CommentNeedsNewline | edn.js:249-253 | a line comment reads exactly when a line feed follows it, and then it runs through that line feed |
| EdnLexer.DigitsValueOfNatText | edn.js:230 | reading the printed digits of a natural number gives the number back |
| EdnLexer.SignedValueOfIntText | edn.js:230 | reading the printed text of an integer, sign included, gives the integer back |
| EdnLexer.IntTextIsInteger | edn.js:17-28 | the printed text of an integer before a boundary matches the integer pattern in full and not the float pattern |
| EdnLexer.LexIntText | edn.js:228-235 | the printed text of an integer reads back as that integer and consumes the separators after it |
| EdnLexer.LexPlainString | edn.js:176-180 | a quoted text without quotes or backslashes reads back as that text |
| EdnBuilder.Init | edn.js:41-46 | only the empty root list is open, with no pending tag or key |
| EdnBuilder.Insert | edn.js:65-66 | adding to a set: the same members plus the value; unchanged when present, appended when new; no duplicates stay none |
| EdnBuilder.Assign | edn.js:70 | storing into a map: the key now maps to the value, every other key keeps its value, and a new key is appended |
| EdnBuilder.AssignKeepsKeysUnique | edn.js:70 | storing into a map never makes a key appear twice |
| EdnBuilder.Route | edn.js:62-72 | it fails exactly when nothing is open and a key is already pending; kinds and tags do not change; `RouteDestination` states where the value goes |
| EdnBuilder.RouteDestination | edn.js:62-72 | with a collection open: a list or vector gets the value appended, a set gets it inserted, a map without a pending key takes it as the key, and a map with one stores the value under it and clears the key; no other collection changes |
| EdnBuilder.PushTree | edn.js:48-73 | `pushTree` fails exactly on a tagged nil or a second value with nothing open; it always clears the tag and keeps the stack |
| EdnBuilder.PopStack | edn.js:75-98 | `popStack` drops the innermost collection and keeps the tag and the pending key; its only errors are a pending tag, no parent, a set parent and a map parent without entries; `PopStackOutcome` states the new heap and which error arises when |
| EdnBuilder.PopStackOutcome | edn.js:75-98 | each outcome of `popStack`: a pending tag raises; an untransformed collection is just dropped from the stack; a transformed one with no parent, in a set, or in a map without entries raises; otherwise it replaces the parent list's last element or the parent map's last value, and no other collection changes |
| EdnBuilder.CloseTop | edn.js:122-175 | a closer keeps the state valid |
| EdnBuilder.Feed | edn.js:104-262 | one step of the main loop keeps the state valid; `CommentIsSkipped` and `TagMarkStep` state the comment and tag steps |
| EdnBuilder.Run | edn.js:102-265 | reading the rest of the text keeps the state valid |
| EdnBuilder.Parse | edn.js:36-267 | a successful parse returns the collections, the first being an untagged list |
| EdnBuilder.RunNeverRaisesTaggedNumber | edn.js:219-236 | the "no tags for Float/Integer" errors are never raised from any valid state |
| EdnBuilder.ParseNeverRaisesTaggedNumber | edn.js:223-234 | no text makes `parseEdn` raise the tagged-number errors |
| EdnBuilder.TaggedNumberIsAccepted | edn.js:49-61 | an unregistered tag on an integer is dropped and the integer is appended |
| EdnBuilder.CloserMatchesInnermost | edn.js:122-175 | a closer succeeds only when it matches the innermost collection and no tag is pending; a mismatch and a pending tag raise; a plain collection is just closed |
| EdnBuilder.StrayParenPopsRoot | edn.js:122-132 | a top-level `)` closes the root list; the next value becomes the pending key and the one after fails |
| EdnBuilder.MapPairsValues | edn.js:67-71 | inside a map the first value becomes the pending key and the second is stored under it |
| EdnBuilder.MapValueIsAMap | edn.js:62-72 | a map opened while its parent map has a pending key becomes that key's value and clears the slot |
| EdnBuilder.PendingKeyIsShared | edn.js:62-72 | a map opened inside a map with no pending key becomes the one shared pending key while it is still open; its first value then pairs with it inside itself, so it holds itself as a key, and the parent stays as it was |
| EdnBuilder.SetDeduplicates | edn.js:65-66 | a set ignores a value it already holds |
| EdnBuilder.TagIsConsumed | edn.js:49-61 | a pending tag is recorded on a collection, replaces any other value with its transformer's result, or is dropped |
| EdnBuilder.TaggedCollectionIsTransformedAtClose | edn.js:80-86 | a tagged collection in a list is replaced by its transformer's result when it closes |
| EdnBuilder.CommentIsSkipped | edn.js:249-253 | a comment token changes nothing and reading goes on after it; `CommentNeedsNewline` gives its extent, through the line feed and the separators after it |
| EdnBuilder.TagMarkStep | edn.js:254-261 | a tag token raises "two tags in a row" when a tag is pending, and otherwise sets the pending tag to its name and reading goes on after it; `TagsAreTagMarks` says which text reads as that token |
| EdnBuilder.LeadingSeparatorsAreIgnored | edn.js:101 | separators before the text do not change the result |
| EdnBuilder.UnclosedCollectionsAreReturned | edn.js:102-266 | `(` parses to a root list holding one empty, still open list |
| EdnBuilder.ReplaceLastValueKeepsKeys | edn.js:87-89 | overwriting the last map entry's value keeps the keys unique |
| EdnBuilder.RouteKeepsWellFormed | edn.js:62-72 | storing a value keeps every set and map duplicate-free |
| EdnBuilder.PushTreeKeepsWellFormed | edn.js:48-73 | `pushTree` keeps every set and map duplicate-free |
| EdnBuilder.PopStackKeepsWellFormed | edn.js:75-98 | `popStack` keeps every set and map duplicate-free |
| EdnBuilder.FeedKeepsWellFormed | edn.js:104-262 | each step keeps every set and map duplicate-free |
| EdnBuilder.RunKeepsWellFormed | edn.js:102-265 | the main loop keeps every set and map duplicate-free |
| EdnBuilder.ParseIsWellFormed | edn.js:36-267 | every set `parseEdn` returns holds no value twice and every map no key twice |
| EdnReader.Parser.constructor | edn.js:41-46 | a new reader holds the initial state and the whole text |
| EdnReader.Parser.PushTree | edn.js:48-73 | the method leaves the state `EdnBuilder.PushTree` gives, or returns its error |
| EdnReader.Parser.PopStack | edn.js:75-98 | the method leaves the state `EdnBuilder.PopStack` gives, or returns its error |
| EdnReader.Parser.Step | edn.js:104-262 | one pass of the loop body leaves the state `EdnBuilder.Feed` gives, or returns its error |
| EdnReader.Parser.Read | edn.js:101-266 | the loop returns the collections `EdnBuilder.Run` builds from the text after leading separators, or its error |
| EdnReader.ParseEdn | edn.js:36-267 | `parseEdn` lays the user's tags over `inst` and returns exactly `EdnBuilder.Parse` with that table |
| EdnWriter.KeyText | edn.js:304 | every scalar key prints; a collection key is refused |
| EdnWriter.Render | edn.js:272-312 | on success the visited set grows by collections of the heap only; nil and booleans fail; a collection is printed only when not yet visited, and is then marked visited; a scalar marks nothing |
| EdnWriter.RenderItems | edn.js:283-299 | printing elements only adds collections of the heap to the visited set |
| EdnWriter.RenderEntries | edn.js:300-311 | printing entries only adds collections of the heap to the visited set |
| EdnWriter.Writer.constructor | edn.js:270-271 | the writer starts with empty text and nothing visited |
| EdnWriter.Writer.Emit | edn.js:272-312 | on success `result` grows by `Render`'s text and `seen` becomes its visited set; on failure the error is `Render`'s |
| EdnWriter.Writer.EmitRef | edn.js:280-311 | printing a collection agrees with `Render` |
| EdnWriter.Writer.EmitItems | edn.js:286-298 | the element loop agrees with `RenderItems`, and fails on an empty collection |
| EdnWriter.Writer.EmitEntries | edn.js:302-309 | the entry loop agrees with `RenderEntries`, and fails on an empty map |
| EdnWriter.StringifyEdn | edn.js:269-315 | `stringifyEdn` returns exactly the text or error of `Render` from an empty visited set |
| EdnWriter.RenderItemsVisits | edn.js:280-282 | a successful print visited every element collection exactly once, so no two elements are the same collection |
| EdnWriter.RenderEntriesVisits | edn.js:280-282 | a successful print visited every map value collection exactly once |
| EdnWriter.PrintedChainIsSimple | edn.js:280-282 | along any chain of held collections from a printed one, each was unvisited before and none occurs twice |
| EdnWriter.CycleIsRejected | edn.js:280-281 | a collection that reaches itself through a chain of held elements or map values, of any length, is rejected |
| EdnWriter.SharingIsRejected | edn.js:280-281 | a collection holding the same collection twice is rejected |
| EdnRoundTrip.PlainText | edn.js:274-277 | the printed text of an integer or plain string starts with neither a separator nor a closer |
| EdnRoundTrip.RenderPlainItems | edn.js:284-299 | plain elements print as their texts joined by commas and visit nothing |
| EdnRoundTrip.RenderPlainEntries | edn.js:300-310 | plain map entries print as `key value` pairs joined by commas and visit nothing |
| EdnRoundTrip.RenderPlainCollection | edn.js:272-312 | a collection of plain values prints as its opener, its elements or entries joined by commas, and its closer, and is marked visited |
| EdnRoundTrip.LexPlain | edn.js:176-236 | the printed text of a plain value reads back as that value |
| EdnRoundTrip.RunSpaced | edn.js:102-265 | reading plain values, each followed by at least one separator or the end, appends them in order to the innermost collection |
| EdnRoundTrip.TopLevelForms | edn.js:36-267 | plain values at top level, with any separators around them, parse to the root list holding them in order |
| EdnRoundTrip.ReadBackItems | edn.js:36-267 | a vector or set of plain values, with any separators, reads as a root list holding that one collection |
| EdnRoundTrip.ReadBackEntries | edn.js:36-267 | a map of plain keys and values, with any separators, reads as a root list holding that one map |
| EdnRoundTrip.ParseOfStringify | edn.js:36-315 | `parseEdn(stringifyEdn(c))` gives back the elements of a list, vector or set of plain values, in order; a list comes back as a vector |
| EdnRoundTrip.ParseOfStringifyMap | edn.js:36-315 | `parseEdn(stringifyEdn(m))` gives back a map with distinct string keys and plain values, entries in order, as test.js:52-53 prints one |
| EdnRoundTrip.GapsDoNotMatter | edn.js:17-30 | which separators sit before, between and after the elements, in a vector or at top level, does not change what is read |

## Left out

- `Date.parse` and the body of the built-in `inst` transformer: every transformer is a parameter, so `inst` is passed in.
- Floating point: a float is kept as its literal text. `parseFloat` and JavaScript's printing of numbers are not modelled.
- `parseInt` is exact here. Its loss of precision beyond 2^53 is not modelled.
- `unescape` is a parameter of the call (`Config.unescape`).
- The regular-expression engine: each pattern is written out as the run lengths it matches.
- Object keys: JavaScript turns every map key into a property name and orders integer-like names first. Here keys are values kept in insertion order, and the writer refuses a collection key (`UnsupportedKey`).
- The `$ednType$` and `$ednTag$` properties are fields of `Coll`. Their appearance as ordinary object keys is not modelled, for example in the writer's output or in the property count.
- EdnBuilder.PopStack: a tagged, transformed collection closing into a map without entries raises `MapSlotMissing`. The code instead overwrites whichever property the map gained last, typically `$ednType$`.
- Inherited object properties are not modelled. A tag named like a built-in object property (`#toString`) counts as unregistered. A character name like `\constructor` is invalid.
- Recording a tag on a string, number or boolean is silently ignored, as in non-strict mode. The strict-mode `TypeError` is not modelled.
- Set membership uses value equality for scalars and identity for collections. Floats are text, so `1.0` and `1.00`, or `1.0` and `1`, are distinct set members here. The host's SameValueZero merges them.
- `console.log` calls before errors and the test file `test.js` are not modelled.
- EdnWriter.Render: integers print as their decimal digits. JavaScript's exponent notation for very large numbers is not modelled.
- EdnRoundTrip.ParseOfStringify: covers lists, vectors and sets of integers and strings without quotes or backslashes. Nested collections, floats and escaped strings are not covered, because the writer neither escapes strings nor prints floats as the reader's text.
- EdnRoundTrip.ParseOfStringifyMap: covers a non-empty map with distinct string keys whose values are integers or plain strings. An integer key is not covered, because the writer prints it as a string and it reads back as a string key.
