# myjson core in Dafny

This project models the reader of `src/myjson.cpp`, a small JSON-like parser with three parts.

- **Tokenizer.** `CMyJsonParser` moves a cursor over the input text and produces tokens. These are punctuation, quoted strings (an object name when a `:` follows, a string value otherwise), bare tokens (null/true/false in any letter case, digit-only integers, digits with one non-final `.` as doubles, anything else as a string), and Eof or Invalid.
- **Stack machine.** `Parse` keeps a stack of open nodes, the current node, a pending object name and a failure flag. It returns a root node or nothing.
- **Node classes.** There is one class per kind (`Null`, `Bool`, `Int`, `Double`, `String`, `Object`, `Array`), each with a key. Each class has typed conversion operators that throw `bad_cast` on the wrong kind. `Object` and `Array` add key and index lookup, which throw `out_of_range`.

Modules:

- `Wrappers` holds `Option` and `Result`.
- `JsonNode` holds the node datatype, `GetType`, the conversions, the lookups and `AddNode`.
- `JsonLexer` states the tokenizer as pure functions. `TokenAt(s, i)` is what `GetNextToken` returns with the cursor at `i`, together with the new cursor. `Tokens(s, i)` is the whole token stream.
- `JsonParser` holds two things:
  - the stack machine as a transition function, `Step`, `Run` and `ParseResult`;
  - the class `Parser`, whose methods follow the C++ loops statement by statement. Each method is proved to compute the matching function: its cursor moves and its results equal those functions.
- `JsonLexerProperties`, `JsonParserProperties` and `JsonRoundTrip` prove what the tokenizer and the parser promise. Among these:
  - the escape rules of quoted strings;
  - how bare tokens are classified;
  - that only an Object or Array root is ever accepted, and only when its closing token is followed by Eof;
  - that unbalanced, whitespace-only and scalar-rooted inputs are rejected;
  - the per-token rules;
  - a round trip: the token stream that describes any Object or Array tree parses back to exactly that tree.

Nodes are values. The C++ code attaches a new container to its parent when it opens it, through a shared pointer. The model appends the finished container to its parent when the container is closed. On success both give the same tree, and on failure neither returns one.

The debug check after a closing token, `assert(bInvalid == false)` at `src/myjson.cpp:766` and `:777` (marked `// @todo_llasek: DBG`), is reached on malformed closes such as `}` and `[}`. The model follows the code and treats these as ordinary parse failures (see Findings).

## Model

| member | source | states |
|---|---|---|
| JsonNode.GetType | src/myjson.cpp:96-99 | each node class reports its own kind (Null, Bool, Int, Double, String, Object, Array: the overrides at lines 96, 146, 170, 194, 218, 237 and 293), never Invalid; the kind is Object or Array exactly for containers |
| JsonNode.NarrowToInt | src/myjson.cpp:165-168 | the implicit `long long` to `int` conversion yields a 32-bit value congruent modulo 2^32, and an in-range value unchanged |
| JsonNode.AsBool | src/myjson.cpp:30-37 | operator bool succeeds exactly on a Bool node, with its flag; every other kind throws bad_cast |
| JsonNode.AsInt | src/myjson.cpp:86-89 | operator int succeeds exactly on Null (0) and Int nodes (NarrowToInt of their value, so unchanged when in range); others throw bad_cast |
| JsonNode.AsDouble | src/myjson.cpp:189-192 | operator double succeeds exactly on a Double node; others throw bad_cast |
| JsonNode.AsString | src/myjson.cpp:57-64 | operator string_view succeeds exactly on Null ("null"), Bool ("true"/"false") and String (its text) nodes; others throw bad_cast |
| JsonNode.FindKey | src/myjson.cpp:258-261 | the find_if: the index of the first child with the key, and None exactly when no child has it |
| JsonNode.Get | src/myjson.cpp:256-272 | key lookup succeeds iff the node is an Object or Array with a child of that key; the result carries the key and is the first such child |
| JsonNode.At | src/myjson.cpp:242-254 | index lookup with the intended bounds test: succeeds iff 0 <= idx < size, with the child at idx; out_of_range otherwise |
| JsonNode.AddChild | src/myjson.cpp:274-277 | AddNode appends the child at the end of an Object's or Array's child list, keeping kind and key; no other node takes children |
| JsonNode.IndexGuardAdmitsSize | src/myjson.cpp:244 | the as-written test `size < (size_t)idx` lets through exactly the indices 0..size, negatives wrapping to huge values |
| JsonNode.IndexGuardOffByOne | src/myjson.cpp:298-310 | on every Object or Array the index `size` passes the as-written test although no child is there |
| JsonNode.AtAgreesWithGuard | src/myjson.cpp:300 | the corrected lookup agrees with the as-written test on every index except size |
| JsonNode.GetIsFirstAt | src/myjson.cpp:312-325 | a key lookup's result is reachable by index, and no earlier child has that key |
| JsonNode.AddChildThenAt | src/myjson.cpp:327-330 | after AddNode the earlier positions are unchanged and the new child is last |
| JsonNode.AddChildThenGet | src/myjson.cpp:327-330 | after AddNode a key lookup that succeeded still finds the same child; a missing key is found exactly when the new child carries it |
| JsonNode.FindKeyAppend | src/myjson.cpp:258-261 | find_if over a vector extended by one element: earlier matches win, else the new element if it matches |
| JsonLexer.SkipWhite | src/myjson.cpp:399-410 | the first position at or after the cursor that is not space, tab, LF or CR; everything skipped is whitespace |
| JsonLexer.ScanQuoted | src/myjson.cpp:443-500 | the quoted-string scan never moves back or past the end, and when it stops before the end it stops just past a quote (which quote, and the text, are stated by ScanQuotedPieces and ScanQuotedUnterminated) |
| JsonLexer.QuotedTokenTypeAt | src/myjson.cpp:412-434 | after the closing quote and whitespace: `:` gives ObjectName and is consumed; another character gives StringValue and is left unread; the end gives Invalid |
| JsonLexer.BareEnd | src/myjson.cpp:569-589 | a bare token runs up to the first whitespace, `,`, `}` or `]` |
| JsonLexer.ClassifyValue | src/myjson.cpp:509-560 | a bare token is a literal, Int, Double or String token, and the numeric and string kinds carry the raw text |
| JsonLexer.BareTokenAt | src/myjson.cpp:562-595 | GetValueToken classifies the text up to BareEnd; the cursor then sits one past a whitespace or `,` delimiter, and at a `}` or `]` or the end |
| JsonLexer.TokenAt | src/myjson.cpp:597-633 | GetNextToken never moves the cursor back or past the end, and moves it forward for every token except Eof |
| JsonLexer.Tokens | src/myjson.cpp:701-703 | the stream the parse loop reads ends with its first Eof or Invalid, and only there |
| JsonLexerProperties.NextTokenSkipsWhitespace | src/myjson.cpp:597-633 | Eof exactly when only whitespace remains, with the cursor then at the end; otherwise the cursor strictly advances; `, { } [ ]` map to their one-character tokens |
| JsonLexerProperties.ScanQuotedPieces | src/myjson.cpp:443-500 | quoted round trip: for any string written as plain characters and backslash pairs, the scan yields `\\` as `\`, `\"` as `"`, keeps any other pair, and ends at the first unescaped quote |
| JsonLexerProperties.ScanQuotedUnterminated | src/myjson.cpp:443-500 | when the input ends inside a quoted string (after plain characters and backslash pairs, possibly with one backslash left pending), the scan runs to the end of the input and yields the decoded text so far, the pending backslash adding nothing |
| JsonLexerProperties.QuotedTokenAt | src/myjson.cpp:597-633 | GetNextToken at a `"` returns the scanned text typed by GetQuotedStringTokenType at the scan's end |
| JsonLexerProperties.UnterminatedStringInvalid | src/myjson.cpp:412-434 | a quoted string that is never closed gives an Invalid token carrying the text read so far, with the cursor at the end of the input |
| JsonLexerProperties.EscapedQuoteDoesNotClose | src/myjson.cpp:463-477 | `"a\"` does not close at the escaped quote: GetNextToken returns Invalid with the text `a"` |
| JsonLexerProperties.UnknownEscapeKept | src/myjson.cpp:485-499 | a backslash before any character other than `\` and `"` is kept together with that character |
| JsonLexerProperties.BareTokenExtent | src/myjson.cpp:562-595 | a bare token is the non-empty run up to the first delimiter, classified; whitespace and `,` after it are consumed, `}` and `]` are not |
| JsonLexerProperties.ClassifyValueKinds | src/myjson.cpp:509-560 | each token kind is characterised exactly: Int iff all digits, Double iff digits with one non-final `.`, literals iff case-insensitively equal, String otherwise |
| JsonLexerProperties.NotALiteral | src/myjson.cpp:521-531 | a token starting with a digit or `.` never matches null, true or false |
| JsonLexerProperties.DigitsAreInt | src/myjson.cpp:534-541 | any all-digit token, leading zeros included, is IntValue with its raw text |
| JsonLexerProperties.LeadingDotIsDouble | src/myjson.cpp:543-547 | `.` followed by digits is DoubleValue: the integer part may be missing |
| JsonLexerProperties.SignIsString | src/myjson.cpp:554-556 | there is no sign: any token starting with `-` is StringValue with its raw text |
| JsonLexerProperties.TrailingDotIsString | src/myjson.cpp:544-551 | any token ending in `.` is StringValue, not a decimal |
| JsonLexerProperties.ExponentIsString | src/myjson.cpp:554-556 | there is no exponent: a token starting with a digit and containing `e` or `E` is StringValue |
| JsonLexerProperties.TwoDotsIsString | src/myjson.cpp:543-551 | a token with two `.` is StringValue |
| JsonLexerProperties.UpperCaseTrue | src/myjson.cpp:521-531 | `TRUE` is TrueValue: the comparison ignores letter case |
| JsonLexerProperties.MixedCaseNull | src/myjson.cpp:521-531 | `NuLL` is NullValue |
| JsonLexerProperties.LiteralPrefixIsString | src/myjson.cpp:523 | only whole literals match: `nul` is StringValue |
| JsonParser.StrToLL | src/myjson.cpp:744 | strtoll on an Int token gives a value in [0, LLONG_MAX], equal to the decimal value of the digits when that fits |
| JsonParser.NodeOf | src/myjson.cpp:728-770 | the node created for a value or container token carries the pending key; containers start empty, with Object for `{` and Array for `[` |
| JsonParser.JsonAddNode | src/myjson.cpp:635-679 | succeeds iff the stack is empty (the node is then pushed, scalar or not) or its top is an Object or Array; a scalar is appended to the top, a container is pushed |
| JsonParser.JsonRmNode | src/myjson.cpp:681-690 | pops iff the stack is not empty and no name is pending |
| JsonParser.Attach | src/myjson.cpp:643-658 | a closed container becomes the last child of the Object or Array below it |
| JsonParser.Close | src/myjson.cpp:763-778 | a close succeeds only with a non-empty stack, no pending name and a top of the closing kind, which becomes curNode |
| JsonParser.Add | src/myjson.cpp:728-771 | a value or container token succeeds iff JsonAddNode does; the node becomes curNode and the name is cleared |
| JsonParser.Step | src/myjson.cpp:701-793 | one loop iteration accepts iff curNode is set, the stack is empty and the token is Eof, returning curNode; Eof and Invalid never let the loop go on |
| JsonParser.Parser.constructor | src/myjson.cpp:394-397 | the parser starts at position 0 of its text |
| JsonParser.Parser.QuotedStringTokenType | src/myjson.cpp:412-434 | the loop computes QuotedTokenTypeAt, both the type and the new cursor |
| JsonParser.Parser.QuotedStringToken | src/myjson.cpp:436-507 | the loop with the escape flag computes ScanQuoted's text, then the type and the cursor of QuotedTokenTypeAt |
| JsonParser.Parser.ParseValueToken | src/myjson.cpp:509-560 | the literal table and the classification loop compute ClassifyValue |
| JsonParser.Parser.ValueToken | src/myjson.cpp:562-595 | the scan loop computes BareTokenAt, both the token and the new cursor |
| JsonParser.Parser.NextToken | src/myjson.cpp:597-633 | the dispatch loop computes TokenAt, both the token and the new cursor |
| JsonParser.RunFirst | src/myjson.cpp:701-716 | the first token's transition decides the loop (return, fail) or hands the rest of the stream to the new state |
| JsonParser.Parser.ApplyToken | src/myjson.cpp:718-793 | the switch of the loop body fails exactly when the transition rejects, and otherwise produces the transition's new stack, curNode and pending name |
| JsonParser.Parser.Parse | src/myjson.cpp:692-801 | the token loop over the stack, curNode, jtObjName and bInvalid returns exactly Run over the token stream from the cursor |
| JsonParser.Parse | src/myjson.cpp:808-812 | CMyJsonNode::Parse returns ParseResult of the text |
| JsonParserProperties.InitInv | src/myjson.cpp:696-699 | the initial locals satisfy the stack invariant, and the parse has not finished |
| JsonParser.StepDispatch | src/myjson.cpp:718-793 | before the root is complete, each token kind selects its own rule of the switch |
| JsonParserProperties.AddKeepsInv | src/myjson.cpp:635-679 | JsonAddNode keeps the invariant: a scalar is on the stack only when it is alone there |
| JsonParserProperties.CloseAttaches | src/myjson.cpp:763-778 | under the invariant a close succeeds iff the stack is non-empty, no name is pending and the top has the closing kind; the popped container then becomes the last child of the node below |
| JsonParserProperties.CloseKeepsInv | src/myjson.cpp:763-778 | closes keep the invariant |
| JsonParserProperties.StepKeepsInv | src/myjson.cpp:701-793 | every transition keeps the invariant |
| JsonParserProperties.RunAcceptsContainer | src/myjson.cpp:708-716 | from any state satisfying the invariant, a returned root is an Object or Array |
| JsonParserProperties.AcceptedRootIsContainer | src/myjson.cpp:796-800 | Parse returns only an Object or Array root |
| JsonParserProperties.RunAcceptsAfterRootClose | src/myjson.cpp:708-716 | an accepted stream ends with the root's closing token followed by Eof |
| JsonParserProperties.AcceptAtOnce | src/myjson.cpp:707-714 | once the stack is empty and a current node exists, the only accepted token is Eof, and it returns that node |
| JsonParserProperties.RootCloseThenEof | src/myjson.cpp:707-714 | in an accepted stream, the step that completes the top-level value is the close of the root, and the next and last token is Eof |
| JsonParserProperties.StepToFinished | src/myjson.cpp:763-778 | the only transition that completes the root is the close of the root, by the token of its kind |
| JsonParserProperties.CloseCompletes | src/myjson.cpp:763-778 | a successful close leaves curNode of the closing token's kind |
| JsonParserProperties.OnlyCloseCompletes | src/myjson.cpp:718-762 | name, value, container and comma tokens never complete the root |
| JsonParserProperties.AcceptedEndsWithRootClose | src/myjson.cpp:708-716 | the tokens of an accepted text end with the closing token of the returned root, followed by Eof |
| JsonParserProperties.AddCountsContainers | src/myjson.cpp:664-673 | adding a node raises the number of open containers by one exactly for a container |
| JsonParserProperties.CloseCountsContainers | src/myjson.cpp:681-690 | a successful close lowers the number of open containers by one |
| JsonParserProperties.StepCountsContainers | src/myjson.cpp:718-793 | each transition changes the open containers by the token's opens minus closes |
| JsonParserProperties.RunAcceptsBalanced | src/myjson.cpp:786-788 | an accepted stream closes all open containers plus all containers it opens |
| JsonParserProperties.UnbalancedRejected | src/myjson.cpp:796-800 | a text whose tokens open a different number of containers than they close is rejected (unclosed containers fail) |
| JsonParserProperties.WhitespaceOnlyRejected | src/myjson.cpp:786-788 | empty or whitespace-only input is rejected |
| JsonParserProperties.ScalarRootNeverAccepted | src/myjson.cpp:637-640 | with a scalar alone on the stack no continuation is ever accepted |
| JsonParserProperties.TopLevelScalarRejected | src/myjson.cpp:637-640 | a stream whose top-level value is a scalar, named or not, is rejected |
| JsonParserProperties.BareScalarRejected | src/myjson.cpp:660-661 | a text whose top-level value is a scalar, named or not, is rejected |
| JsonParserProperties.ObjectNameRule | src/myjson.cpp:720-726 | an object name is taken iff no name is pending, and then becomes the pending name |
| JsonParserProperties.CommaRule | src/myjson.cpp:780-784 | a comma is valid exactly when the stack top is an Object or Array, and changes nothing |
| JsonParserProperties.CloseRule | src/myjson.cpp:763-778 | EndObject/EndArray succeed iff the stack is non-empty, no name is pending and the top is of the matching kind; the top becomes curNode and the last child of the node below |
| JsonParserProperties.ValueTokenBuildsTree | src/myjson.cpp:728-771 | a value or container token creates a node keyed by the pending name and clears it; it succeeds iff the top is a container; a scalar becomes the top's last child, a container is pushed |
| JsonParserProperties.CloseAssertIsAcceptance | src/myjson.cpp:763-778 | the condition asserted after a close holds exactly when the close is accepted |
| JsonParserProperties.StrayCloseTokens | src/myjson.cpp:597-633 | the text `}` reads as EndObject, Eof |
| JsonParserProperties.MismatchedCloseTokens | src/myjson.cpp:597-633 | the text `[}` reads as NewArray, EndObject, Eof |
| JsonParserProperties.CloseAssertFailsOnStrayClose | src/myjson.cpp:766 | the asserted condition is false for EndObject on an empty stack, and for EndObject right after NewArray |
| JsonParserProperties.StrayCloseRejected | src/myjson.cpp:796-800 | `}` and `[}` are ordinary parse failures |
| JsonParserProperties.ParsedLeafConversions | src/myjson.cpp:728-756 | the conversions of each parsed leaf: null gives 0 and "null"; a bool gives its flag and its text; an in-range integer gives its value; a double only its text; a string only its text |
| JsonRoundTrip.DecimalStringRoundTrip | src/myjson.cpp:744 | strtoll reads back the decimal text of any natural number |
| JsonRoundTrip.ScalarTokenReadsBack | src/myjson.cpp:728-756 | the token of a scalar node creates that very node under its key |
| JsonRoundTrip.Extend | src/myjson.cpp:274-277 | repeated AddNode keeps the kind and key and appends the children |
| JsonRoundTrip.RunNode | src/myjson.cpp:718-778 | reading a node's tokens adds the node as the last child of the open container and makes it curNode |
| JsonRoundTrip.RunValue | src/myjson.cpp:728-778 | reading a node's value tokens under a pending name has the same effect |
| JsonRoundTrip.RunOpen | src/myjson.cpp:758-761 | an opening token pushes its container, empty and keyed by the pending name, and makes it curNode |
| JsonRoundTrip.RunClose | src/myjson.cpp:763-778 | the closing token of a filled container pops it into the node below and makes it curNode |
| JsonRoundTrip.RunFillAndClose | src/myjson.cpp:763-784 | after the opening token, the children's tokens and the closing token rebuild the container and attach it |
| JsonRoundTrip.RunContainer | src/myjson.cpp:758-778 | open, children and close rebuild the container in place |
| JsonRoundTrip.RunChildren | src/myjson.cpp:780-784 | a comma-separated list of siblings is appended to the open container in order |
| JsonRoundTrip.FirstChild | src/myjson.cpp:728-771 | the first sibling and its comma are taken in |
| JsonRoundTrip.RunRoot | src/myjson.cpp:701-793 | reading the token stream of any Object or Array tree from the initial state leaves the stack empty with that very tree as curNode, whatever follows |
| JsonRoundTrip.RoundTrip | src/myjson.cpp:692-801 | the token stream of any Object or Array tree (named or not, integers within `long long`), ended by Eof, parses back to exactly that tree: keys, values, child order and nesting |
| JsonRoundTrip.TrailingTokenRejected | src/myjson.cpp:707-714 | any token other than Eof after the token stream of an Object or Array tree makes Parse fail, whatever follows it (so `{ } { }` is rejected) |

## Left out

- The chunk-supplier overload `Parse(std::function<std::string()>)` has no body in the source, so there is nothing to model.
- `strtod` and floating point: a Double node keeps its token text, and `AsDouble` returns that text.
- JsonNode.AsDouble: returns the token text instead of the binary double that strtod would produce.
- The build without `WITH_SSTREAM`, which doubles the character after a backslash, is not modelled. Only the default build is.
- The build without exceptions is not modelled. Throws are `Err(BadCast)` / `Err(OutOfRange)` results, not the sentinel nodes and values that build returns.
- The `uint32_t` width of the cursor `m_nJsonIdx` is not modelled. The cursor is a `nat`, so inputs of 4 GiB or more, where it would wrap, are outside the model.
- The debug table `GetTokenType` and the commented-out token print are diagnostics only.
- Nodes are values: `AddNode`'s in-place `push_back` is `AddChild`, which returns the extended node. Shared ownership through `my_shared_ptr` and aliasing are not captured. Neither is the C++ order of attaching a child to its parent when it opens (the model attaches it when it closes).
- `GetKey` is the `key` field of the node datatype.
- `tolower` is the "C"-locale ASCII mapping. Characters beyond ASCII compare unchanged.
- JsonParser.StrToLL: models `strtoll` only on the digit-only texts an IntValue token can carry. It does not model signs, leading blanks or `errno`.
- The source has no serialiser. `JsonRoundTrip.TokensOf` is a model-side writer of token streams, used only to state the round trip. The round trip is stated on token streams, not on texts.
- There is no lemma about a concrete document such as the demo input. Only the two short texts of the second finding (`}` and `[}`) are read concretely. Longer literal texts make the verifier unfold the whole tokenizer, which is too expensive. The per-token rules and the round trip cover the general case.
- The Parse loop in `JsonParser.Parser.Parse` attaches a closed container to the node below it (through `Attach`) where the C++ code attached it when it opened. The accept and reject decisions are the same in both.

## Findings

| source | as written | input that shows it | evidently intended | confidence | as-written member | corrected member |
|---|---|---|---|---|---|---|
| src/myjson.cpp:244 (and :300) | `if( m_vecNodes.size() < (size_t)a_nIdx )` throws only for indices past `size` | `node[node.size()]` on any Object or Array, e.g. index 1 of the root of `[1]`, reads past the end of the vector | throw `out_of_range` for every index outside `0 <= idx < size` | high, not executed | JsonNode.IndexGuardOffByOne | JsonNode.At |
| src/myjson.cpp:766 (and :777) | `assert( bInvalid == false )` right after a close token, whose failure is ordinary malformed input | the texts `}` and `[}` | a malformed close makes `Parse` return an empty pointer, as every other malformed input does | medium, not executed | JsonParserProperties.CloseAssertFailsOnStrayClose | JsonParserProperties.StrayCloseRejected |
