# boost_spirit_json in Dafny

A model of boost_spirit_json, a small JSON-like loader written with
Boost.Spirit. The program reads one line of text and parses it with a Spirit
grammar into a tree of `Component` values. It reports OK or Fail, and prints
the tree back as text with a `boost::static_visitor`.

The same loader is written twice: `main.cpp` and `json_loader.h`.
`json_loader.h:18-131` is `main.cpp:19-132` without the serializer and `main`,
one line earlier throughout. The model covers both; its rows cite `main.cpp`
and, where the property belongs to the header, `json_loader.h`.

Modules:

- `Options` — `Option` and the parser result `Parsed` (fail, or a value and
  the position after the match).
- `KeyOrder` — `std::less<std::string>` as a strict total order on strings,
  and the uniqueness of an ascending key list.
- `Components` — the tree.
  - `Component` has the variants blank, double, bool, string, `Null`, `Pair`,
    `Array` and `Object`.
  - `Object` is a `std::map` kept as a strictly key-sorted entry list.
  - `Put` is `_v[k] = v`.
  - `FromPairs` is the constructor `Object(const std::vector<Pair>&)`:
    a fold of `Put` over the pairs, so the last pair of a name wins.
  - `MakeObject` is that constructor's loop, proved equal to `FromPairs`.
- `Skipper` — the `ascii::space` skipper, which skips the characters
  `std::isspace` accepts before every primitive parser; literals.
- `StringGrammar` — `_cstr` and `_str`: a quoted text of plain characters and
  the sequences `\"` and `\\`, kept verbatim.
  - The rules carry the skipper, so white space inside the quotes is dropped.
  - Any other backslash fails the string.
- `JsonGrammar` — `_factor`, `_pair`, `_object` and `_array` as a
  recursive-descent parser.
  - The parser works over `seq<char>` with a position.
  - The alternatives are tried in the order string, bool, double, object,
    array, null.
  - A `%` list stops before a comma that no element follows.
  - `load` is the method `Load`, returning the Object and the OK flag; the
    function `Parse` states its outcome.
- `GrammarProperties` — which alternative of `_factor` a value takes.
  - Arrays hold objects only; `{}` and `[]` are accepted.
  - The key of a pair is the string rule's content.
  - `load` accepts when the object rule matches and only white space is left.
  - Every Object a parse builds is sorted at every depth.
- `CommaLists` — every value ends on a character that is neither a comma nor
  white space, so no object or array closes right after a comma: a trailing
  comma is rejected wherever it occurs.
- `Serializer` — the `Serialize` visitor.
  - `Show` states the text as a plain join.
  - The methods `Serialize`, `SerializeArray` and `SerializeObject` build it
    with the visitor's append-then-cut-the-last-comma loops, and are proved
    to give `Show`'s text.
- `Samples` — concrete lines and what `load` and `serialize` make of them,
  proved for every number lexer.

Spirit's `double_` and `std::to_string(double)` are parameters.
- A number lexer `num: NumberLexer` is any function that matches at least
  one character, starts only at a sign, a digit, a dot or the first letter of
  `nan`/`inf`, and never matches at the word `null`. Its match ends on a
  character that is not white space, a comma, a colon, a brace, a bracket or
  a quote (`NumberLast`). Every literal `double_` accepts ends on a digit, the
  dot, the last letter of `nan`, `inf` or `infinity`, or the closing
  parenthesis of a NaN payload such as `nan(1,2)`. Inside that payload any
  character but `)` may stand, the comma included, so the lexer contract
  constrains only the last character. `double_` meets it.
- Printing a double is a function `fmt`.
- A double is its 64-bit pattern.

What the code does at its edges, as the model keeps it:

- White space is everything `std::isspace` accepts: space and the characters
  9 to 13. That is the `ascii::space` skipper (main.cpp:69, main.cpp:129).
- Inside a string the only escapes are `\"` and `\\`, and both are kept
  verbatim. A backslash followed by any other character fails the string
  (main.cpp:76-79).
- `load` returns whatever the object rule left in `result` (main.cpp:126-131),
  whether it prints OK or Fail. `Load` returns the matched Object whenever the
  object rule matched, even with text after it, and promises nothing about
  `result` when the object rule fails.

Definitions the table below relies on:

- The datatypes `Components.Component`, `Pair`, `Entry`, `Object` and `Array`
  are the variant and the classes of main.cpp:24-67. An Object's map is its
  entry list; `Put`, `FromPairs` and the lemmas after them state what the map
  holds.
- `KeyOrder.Less` is the order of the map's keys, `std::less<std::string>`
  (main.cpp:57). The lemmas `LessIrreflexive`, `LessAsymmetric`,
  `LessTransitive` and `LessTotal` make it a strict total order.
- `JsonGrammar.NumberLexer` is the type of `double_` (main.cpp:94), described
  above.
- `Serializer.Show`, `ShowObject`, `ShowArray` and `Join` are the visitor's
  text as functions (main.cpp:137-164). The methods `Serialize`,
  `SerializeArray` and `SerializeObject` are proved to produce that text.
  `ShowObjectInKeyOrder`, `ShowObjectFromPairs`, `CutLastComma` and
  `TerminatedJoin` state its shape.
- `Skipper.Literal` is `qi::lit`, a character or a word after the pre-skip
  (main.cpp:93, main.cpp:95-97).
  `LiteralSound` and `LiteralAfterSpaces` state what it matches.
- `JsonGrammar.Parse` is the outcome `load` prints (main.cpp:129-130).
  `Load`, `GrammarProperties.LoadAccepts` and `LoadSorted` state it.

## Model

| member | source | states |
|---|---|---|
| KeyOrder.LessIrreflexive | main.cpp:57 | no key is below itself in the map's order |
| KeyOrder.LessAsymmetric | main.cpp:57 | two keys are never each below the other |
| KeyOrder.LessTransitive | main.cpp:57 | the key order is transitive |
| KeyOrder.LessTotal | main.cpp:57 | any two distinct keys are ordered one way or the other |
| KeyOrder.AscendingUnique | main.cpp:55-57 | two strictly ascending key lists with the same members are equal |
| Components.FindKeys | main.cpp:55-57 | a lookup finds a value exactly for the keys of the map |
| Components.KeysIndex | main.cpp:55-57 | a key belongs to the map exactly when some entry carries it |
| Components.KeysAbove | main.cpp:55-57 | in a sorted map every key is above a key below its first one |
| Components.Put | main.cpp:52 | `_v[k] = v` keeps the map sorted, adds k to the keys, makes k map to v and leaves every other key's value alone; the size grows by one exactly when k is new |
| Components.SortedCons | main.cpp:55-57 | an entry whose key is below all of a sorted map's keys can go in front of it |
| Components.KeyAbsentFromTail | main.cpp:55-57 | the first key of a sorted map does not occur again |
| Components.FromPairs | main.cpp:50-53 | the Object built from any pair list is a sorted map |
| Components.MakeObject | main.cpp:50-53 | the constructor's loop over the pairs yields the Object FromPairs describes |
| Components.FromPairsKeys | main.cpp:50-53 | the keys of the built Object are exactly the names of the pairs |
| Components.FromPairsLastWins | main.cpp:52 | a pair that no later pair renames gives its key its value |
| Components.FromPairsFind | json_loader.h:49-52 | each key maps to the value of the last pair with that name, and a name no pair carries is not a key |
| Components.FromPairsAbsent | main.cpp:50-53 | a name no pair carries is not a key of the built Object |
| Components.NameBeforeLast | main.cpp:52 | a name other than the last pair's already occurs before it |
| Components.FindAt | main.cpp:55 | the lookup of an entry's key in a sorted map finds that entry's value |
| Components.SortedCanonical | json_loader.h:54-56 | two sorted maps with the same key/value associations are the same map, whatever order the pairs came in |
| Components.ConsPairsSorted | main.cpp:95 | a pair with a sorted value in front of pairs with sorted values keeps them all sorted |
| Components.ConsObjectsSorted | main.cpp:96 | a sorted Object in front of sorted Objects keeps them all sorted |
| Components.PutSortedTrees | main.cpp:52 | storing a tree whose Objects are all sorted in such a map leaves only sorted trees in it |
| Components.FromPairsSorted | main.cpp:50-57 | pairs whose values are sorted trees build an Object that is sorted at every depth |
| Skipper.SkipSpaces | main.cpp:129 | the pre-skip stops inside the text at the end or at a character that is not white space |
| Skipper.SkippedAreSpaces | main.cpp:129 | every character the pre-skip passes over is white space |
| Skipper.SkipSpacesIdempotent | main.cpp:129 | skipping again from a skipped position does not move |
| Skipper.SkipSpacesToEnd | main.cpp:129-130 | the skip reaches the end exactly when only white space is left |
| Skipper.SkipOver | main.cpp:129 | a stretch of white space that ends at a non-space character, or at the end, is exactly what the pre-skip passes over |
| Skipper.LiteralSound | main.cpp:95-97 | a literal that matches consumed only white space, then exactly its text, and the white space was the whole stretch in front of the text |
| Skipper.LiteralAfterSpaces | main.cpp:95-97 | white space followed by the literal's text is matched, and the match ends right after the text |
| StringGrammar.ItemLength | main.cpp:78 | one `_cstr` item is at most two characters and lies inside the text |
| StringGrammar.Content | main.cpp:79 | a content match ends after its start and inside the text |
| StringGrammar.ParseString | main.cpp:79 | a string match ends after its start and inside the text |
| StringGrammar.StringAt | main.cpp:79 | a string that opens right at i reads its content from the next position |
| StringGrammar.SqueezeToken | main.cpp:82 | skipped white space, then a token without white space, squeezes to the token and the rest |
| StringGrammar.SoundStep | main.cpp:78-79 | one item read in front of a sound content is a sound content again |
| StringGrammar.ContentSound | main.cpp:78-79 | a content match is a valid content, ends with the closing quote, and is the text read with its white space removed |
| StringGrammar.StringSound | main.cpp:76-79 | a string match is a valid content between quotes, and is the matched text with white space dropped |
| StringGrammar.CompleteStep | main.cpp:78 | the first item of a valid content is one character, or two for an escape, and the rest stays valid |
| StringGrammar.ContentComplete | main.cpp:78-79 | the case without white space: a valid content followed by a quote is read in full and returned verbatim |
| StringGrammar.StringComplete | json_loader.h:75-78 | the case without white space: every valid content between two quotes is accepted and returned verbatim, the escapes included |
| StringGrammar.StringAcceptsNoSpace | main.cpp:76-79 | on a text without white space the string rule succeeds exactly on a quoted valid content |
| StringGrammar.ValidIsSpaced | main.cpp:78-79 | every valid content is a run of items with white space allowed between them |
| StringGrammar.ContentSpace | main.cpp:79 | white space in front of a content item is skipped: the content reads on after it |
| StringGrammar.BadEscapeFails | main.cpp:76-79 | a backslash followed by anything but a quote or a backslash fails the string, whatever items and white space come before it |
| StringGrammar.ItemStep | main.cpp:78 | the first item of a content in the text is one character, or two for an escape, and the rest after it is again items and white space |
| StringGrammar.SpaceStep | main.cpp:79 | white space opening the content is followed by the rest of the content |
| StringGrammar.BadEscapeAt | main.cpp:78 | at a backslash that ends the text, or that no quote or backslash follows, no item matches and the content fails |
| StringGrammar.BadEscapeContent | main.cpp:78-79 | the content rule fails at a bad escape after any items and white space |
| StringGrammar.UnterminatedFails | main.cpp:79 | a string whose closing quote is missing fails, with or without white space before the end |
| StringGrammar.UnterminatedContent | main.cpp:79 | the content rule fails when the text ends after any items and white space |
| StringGrammar.TrailingBackslashFails | main.cpp:78-79 | a string whose items and white space end in a lone backslash at the end of the text fails |
| StringGrammar.SpacedContentComplete | main.cpp:78-79 | items with white space anywhere between them, followed by a quote, are read in full; the content is that text with its white space removed |
| StringGrammar.SpacedRead | main.cpp:78-79 | the same by position: a spaced content from i to e and a quote at e give the squeezed text and end after the quote |
| StringGrammar.SpacedStringComplete | main.cpp:79 | every spaced content between two quotes is accepted as a string, with its white space removed |
| StringGrammar.ContentSpaced | main.cpp:78-79 | what the content rule reads, up to its closing quote, is a spaced content |
| StringGrammar.QuotedComplete | main.cpp:79 | a quote, a spaced content and a quote after white space are a string whose value is the squeezed content |
| StringGrammar.StringQuoted | main.cpp:79 | a string match is white space, a quote, a spaced content and a closing quote |
| StringGrammar.StringAccepts | main.cpp:76-79 | on any text the string rule succeeds exactly when white space, a quote, a spaced content and a quote follow; the value is then that content with its white space removed |
| JsonGrammar.ParseBool | main.cpp:94 | a `bool_` match ends after its start and inside the text; which word it takes is `GrammarProperties.ValueBool` |
| JsonGrammar.ParseNumber | main.cpp:94 | a `double_` match ends after its start and inside the text; what it may match is `NumberLexer` |
| JsonGrammar.ParseValue | main.cpp:94 | a `_factor` match consumes at least one character and stays inside the text |
| JsonGrammar.ParsePair | main.cpp:95 | a `_pair` match consumes at least one character and stays inside the text |
| JsonGrammar.ParsePairs | main.cpp:97 | a `_pair % ','` match holds at least one pair and consumes input |
| JsonGrammar.MorePairs | main.cpp:97 | the repetition after the first pair always succeeds and never moves backwards |
| JsonGrammar.ParseObject | main.cpp:97 | an `_object` match consumes at least one character and stays inside the text |
| JsonGrammar.ParseObjects | main.cpp:96 | an `_object % ','` match holds at least one object and consumes input |
| JsonGrammar.MoreObjects | main.cpp:96 | the repetition after the first object always succeeds and never moves backwards |
| JsonGrammar.ParseArray | main.cpp:96 | an `_array` match consumes at least one character and stays inside the text |
| JsonGrammar.Parse | main.cpp:129-130 | the Object of an accepted line has its keys in ascending order, like the `std::map` it models |
| JsonGrammar.Load | main.cpp:124-132 | OK exactly when the object rule matched and only white space follows; the result is then that Object, and it is the matched Object whenever the object rule matched |
| GrammarProperties.NotAt | main.cpp:93-97 | a word whose first character differs from the text's is not there |
| GrammarProperties.Excluded | main.cpp:94 | the next character rules out every alternative of `_factor` that cannot start with it |
| GrammarProperties.ValueQuote | main.cpp:94 | after a quote the value is the string rule's result, or no value at all: no later alternative is tried with success |
| GrammarProperties.ValueBool | main.cpp:94 | the words true and false are booleans, not numbers |
| GrammarProperties.ValueObject | main.cpp:94 | after a brace the value is the object rule's result or nothing |
| GrammarProperties.ValueArray | main.cpp:94 | after a bracket the value is the array rule's result or nothing |
| GrammarProperties.ObjectNeedsBrace | main.cpp:97 | an object needs its opening brace |
| GrammarProperties.ArrayNeedsBracket | main.cpp:96 | an array needs its opening bracket |
| GrammarProperties.ValueNull | main.cpp:93-94 | the word null is Null: `double_` never takes it for a number |
| GrammarProperties.ValueAtEnd | main.cpp:94 | with only white space left no value matches |
| GrammarProperties.ValueStart | json_loader.h:93 | a value only starts at a quote, t, f, a brace, a bracket or a number's first character |
| GrammarProperties.ObjectBraces | main.cpp:97 | an object opens with a brace and its match ends with the closing brace |
| GrammarProperties.ArrayParts | main.cpp:96 | an array match has its opening bracket and its closing bracket after the optional list |
| GrammarProperties.ObjectsFirst | main.cpp:96 | a list of objects starts with an object |
| GrammarProperties.LiteralChar | main.cpp:96-97 | a one-character literal that matches is the next character |
| GrammarProperties.ArrayHoldsObjects | json_loader.h:95 | after an array's bracket comes a brace or the closing bracket: its elements are objects only |
| GrammarProperties.EmptyObject | json_loader.h:96 | `{}` matches and gives the empty Object |
| GrammarProperties.EmptyArray | main.cpp:96 | `[]` matches and gives the empty Array |
| GrammarProperties.PairName | json_loader.h:94 | a pair's name is the string rule's content: valid, without its quotes, and the quoted text with white space dropped |
| GrammarProperties.LoadAccepts | json_loader.h:128-129 | load accepts an Object exactly when the object rule matches it from the start and only white space follows |
| GrammarProperties.ValueSorted | main.cpp:94 | a parsed value is a tree whose Objects are all sorted |
| GrammarProperties.PairSorted | main.cpp:95 | a parsed pair's value is such a tree |
| GrammarProperties.PairListSorted | main.cpp:97 | the pairs of a parsed list all hold such trees |
| GrammarProperties.MorePairsSorted | main.cpp:97 | so do the pairs after the first one |
| GrammarProperties.ObjectSorted | main.cpp:97 | a parsed Object is sorted at every depth |
| GrammarProperties.ObjectListSorted | main.cpp:96 | the objects of a parsed list are all sorted at every depth |
| GrammarProperties.MoreObjectsSorted | main.cpp:96 | so are the objects after the first one |
| GrammarProperties.ArraySorted | main.cpp:96 | a parsed Array holds Objects sorted at every depth |
| GrammarProperties.LoadSorted | main.cpp:124-131 | the Object load accepts is sorted at every depth |
| CommaLists.LiteralEnd | main.cpp:95-97 | a literal that matches ends on its own last character |
| CommaLists.StringEnd | main.cpp:79 | a string ends on its closing quote, which is neither a comma nor white space |
| CommaLists.BoolEnd | main.cpp:94 | true and false end on the letter e, which is neither a comma nor white space |
| CommaLists.NumberEnd | main.cpp:94 | a number ends on a `NumberLast` character, which is neither a comma nor white space |
| CommaLists.NullEnd | main.cpp:93 | null ends on the letter l, which is neither a comma nor white space |
| CommaLists.ObjectEnd | main.cpp:97 | an object match ends on its closing brace |
| CommaLists.ArrayEnd | main.cpp:96 | an array match ends on its closing bracket |
| CommaLists.ValueEnd | main.cpp:94 | every value ends on a character that is neither a comma nor white space |
| CommaLists.PairEnd | main.cpp:95 | a pair ends on a character that is neither a comma nor white space |
| CommaLists.MorePairsEnd | main.cpp:97 | the repetition of comma and pair reads nothing or ends on a character that is neither a comma nor white space |
| CommaLists.PairsEnd | main.cpp:97 | a member list ends on a character that is neither a comma nor white space |
| CommaLists.MoreObjectsEnd | main.cpp:96 | the repetition of comma and object reads nothing or ends with a closing brace |
| CommaLists.ObjectsEnd | main.cpp:96 | an element list ends with the closing brace of its last object |
| CommaLists.ObjectBody | main.cpp:97 | an object's member list, or its opening brace when it has none, ends on a solid character that the closing brace follows |
| CommaLists.ArrayBody | main.cpp:96 | an array's element list, or its opening bracket when it has none, ends on a solid character that the closing bracket follows |
| CommaLists.CloseAfter | main.cpp:96-97 | a closing brace or bracket read after a solid end has only white space in front of it |
| CommaLists.ObjectNoTrailingComma | main.cpp:97 | an object match ends with a brace, and the last character before it that is not white space is not a comma |
| CommaLists.ArrayNoTrailingComma | main.cpp:96 | an array match ends with a bracket, and the last character before it that is not white space is not a comma |
| CommaLists.CommaGap | main.cpp:96-97 | a comma followed only by white space leaves nothing solid before the closing character |
| CommaLists.TrailingCommaObject | main.cpp:97 | no object match ends at a closing character that follows a comma and white space, anywhere in the text |
| CommaLists.TrailingCommaArray | main.cpp:96 | no array match ends at a closing character that follows a comma and white space, so `[{},]` is never an array |
| Serializer.CutLastComma | main.cpp:145-154 | appending each item and a comma, then cutting the last comma, is the plain comma join |
| Serializer.TerminatedJoin | main.cpp:147-152 | items each followed by a comma are the join followed by one comma |
| Serializer.ShowObjectInKeyOrder | main.cpp:155-164 | an Object prints as unquoted key:value items in ascending key order, joined by commas, inside braces |
| Serializer.ShowObjectFromPairs | main.cpp:155-164 | the Object built from pairs prints each distinct name once, in ascending order, with the value of the last pair of that name |
| Serializer.Serialize | main.cpp:137-170 | the visitor's text is Show's: blank is empty, booleans are 1 and 0, strings are quoted without escaping, Null is null, a pair is name:value |
| Serializer.SerializeArray | main.cpp:145-154 | the Array loop gives the objects' texts in order, joined by commas, in brackets; no objects give `[]` |
| Serializer.SerializeObject | main.cpp:155-164 | the Object loop gives the entries' key:value texts in map order, joined by commas, in braces; no entries give `{}` |
| Samples.OneEntry | main.cpp:52 | one pair builds the Object with that single entry |
| Samples.TwoEntries | main.cpp:52 | two pairs of the same name build one entry holding the second value; two names in descending order build two entries in ascending order |
| Samples.DuplicateKeyLastWins | main.cpp:52 | `{"a":true,"a":null}` loads as the single entry a: null |
| Samples.UnorderedKeysSorted | main.cpp:55-57 | `{"b":null,"a":true}` loads as a: true then b: null |
| Samples.UnorderedPrinted | main.cpp:141-158 | that Object prints as `{a:1,b:null}` |
| Samples.NestedArray | main.cpp:96 | `{"x":[{"y":null}]}` loads as x: an array holding the object y: null |
| Samples.InnerPrinted | main.cpp:155-164 | the object y: null prints as `{y:null}` |
| Samples.ArrayPrinted | main.cpp:145-154 | an array of that object prints as `[{y:null}]` |
| Samples.NestedPrinted | main.cpp:145-164 | the nested Object prints as `{x:[{y:null}]}` |
| Samples.NumberArrayRejected | main.cpp:96 | `{"x":[1]}` fails: array elements must be objects |
| Samples.MissingValueRejected | main.cpp:95 | `{"a":}` fails: a pair needs a value |
| Samples.TrailingCommaRejected | main.cpp:97 | `{"a":null,}` fails: no trailing comma before the closing brace |
| Samples.PaddedAccepted | main.cpp:129-130 | white space around `{}` is skipped and the line loads as the empty Object |
| Samples.FollowedRejected | main.cpp:129-130 | `{} x` matches the object rule but fails, because text is left over |
| Samples.SpacedKeySqueezed | main.cpp:78-82 | `{"a b":null}` loads with the key ab: white space inside quotes is skipped |
| Samples.BadEscapeRejected | main.cpp:76-79 | a key holding a backslash and n fails the whole line |
| Samples.NanLexerAllowed | main.cpp:94 | a lexer that takes `nan(1,2)`, inner comma and all, is a number lexer |
| Samples.EscapedQuoteKept | main.cpp:76-79 | a key holding an escaped quote keeps the backslash and the quote verbatim |

The remaining Samples members are one-rule steps and character facts for
these lines.

## Left out

- The REPL `main` (main.cpp:173-181) and the `std::cout` of OK/Fail inside `load` (main.cpp:130) are console I/O. The flag is returned by `Load` instead.
- Floating point: `double_` (main.cpp:94) is the parameter `num`. The model keeps only the facts its contract lists, and no number syntax.
- `std::to_string(double)` (main.cpp:140) is the parameter `fmt`.
- Boost.Spirit and Phoenix internals, such as the `phoenix::bind` builders (main.cpp:106-120), are plain constructors, and the backtracking of an ordered choice is a plain if-then-else.
- JsonGrammar.Load: says nothing of the Object returned when the object rule fails (main.cpp:131). Spirit may have partly filled it, and the model returns an empty Object there.
- No round-trip lemma: keys are printed unquoted (main.cpp:158) and booleans as digits (main.cpp:141), so the loader cannot read printed text back.
- The `Pair` arm of the visitor (main.cpp:144) is modelled for totality only. Parsing never stores a Pair as a value.
- Strings are sequences of `char`. Encodings, and the single-byte `char` of `std::string`, are not modelled.
- `Null()` as a distinct runtime class, and `boost::blank` as the default, are the constructors `Null` and `Blank`.
