# Proofs about an event broker and its web framework

The repository is a small broker that hands events from servers to workers, on top of a vendored
copy of the Crow web framework. This project models the parts of it that carry the most state and
proves what they promise over all inputs and all runs.

- **Router** (`RoutePatterns`, `RouteUrls`, `RouteMatches`, `RouteTrie`, `RouteAdd`, `RouteIndex`,
  `RouteTexts`). Patterns are added to a search tree one character at a time, chains of nodes are merged,
  and a search backtracks with shared parameter lists. It is proved to answer like a linear scan over the
  patterns, and which URLs match a pattern's text is proved both ways.
- **HTTP parser** (`HttpSyntax`, `HttpStep`, `HttpRun`, `HttpReceive`, `HttpMarks`, `HttpParser`,
  `HttpProperties`, `HttpAssertions`, `HttpHeaders`, `HttpWords`, `HttpCodings`, `HttpBodies`, `HttpView`,
  `HttpRequestLine`, `HttpHeaderLines`, `HttpRequests`). The reference is a fold over single bytes. The class
  works on whole buffers, with marks, inner loops and late counting, and is proved to refine it;
  independence of how the input is cut follows. Request lines, header lines, lists of transfer codings,
  chunk sizes, content lengths and bodies are proved against what they denote, up to the request that is
  handed on for a whole text.
- **Mustache** (`MustacheTemplate`, `MustacheTrim`, `MustacheSafe`, `MustacheParse`, `MustacheRender`,
  `MustacheText`). A template is a tree with a recursive meaning. Its text is compiled to flat code with
  jumps, lines that hold only a block's tag are taken out, and a loop with a context stack runs the code;
  the output is proved to be the meaning of the tree without these lines.
- **Recursive mutex** (`RecursiveMutex`). Two plain mutexes and a count for each thread; every statement
  is a step, and the claims hold for all interleavings of any number of threads.
- **Events** (`EventTable`, `DecimalText`, `EventFraming`). The life of an event in the broker's table,
  the text in which events are listed, and the worker's loop that reads it back.
- **WebSocket** (`WebSocketFrames`, `WebSocketConnection`). Frames, fragmented messages, and the state
  machine that reads headers whole and payloads in pieces of any size (sections 5.2 to 5.4 of RFC 6455).
- **Middleware** (`Middleware`). The calls before and after a handler, over a whole request.
- **SHA-1** (`Sha1`, `Sha1Example`). The streaming class against sections 5.1.1 and 6.1.2 of FIPS 180-4.
- **JSON** (`JsonText`, `JsonGrammar`, `JsonRoundTrip`, `JsonSpaces`, `JsonLoad`). The writer, the loader over
  one shared buffer, escapes undone in place, and the round trip, with blanks between the tokens or without.
- **Others**: `Base64` (RFC 4648), `Filenames`, `Multipart` and `MultipartMessage` (section 5.1.1 of
  RFC 2046), `QueryString`; `Bytes`, `Options`, `Sequences` and `TextAt` are shared.

Objects that the source updates in place are classes or arrays here, and each method is proved against a
function of the old state; what the source promises is then proved about that function. Bytes are numbers
below 256; JSON, templates, URLs, file names and query strings are sequences of characters that stand for
bytes. Shifts and masks of bytes are written as division and remainder; SHA-1 uses 32-bit words. The texts, names,
numbers and alphabets that writers and readers share are also spelled out in lemmas of their own.

## What the proofs found

Some expectations do not hold of the code. The model keeps the code, and the exact condition is proved.

- A completed HTTP message is completed again by every further byte in the same buffer, because the state
  is reset by `clear` only. Feeding in parts and feeding at once therefore agree exactly if the message is
  not complete after the first part or the parser has stopped (`HttpProperties.SplitExactly`).
- One assertion of the HTTP parser ("Shouldn't get here") is reached by a `Connection` value that begins
  with the byte 0, which passes for a space there (`HttpProperties.ZeroByteAsserts`). When it fails is
  said for all runs (`HttpProperties.RunSound`) and, in terms of the bytes, for a whole value
  (`HttpAssertions.AssertsIffProvoked`); no input without the byte 0 makes any assertion fail
  (`HttpAssertions.NoZeroNoAssert`).
- In a `Transfer-Encoding` list the comma after a coding that begins the word "chunked" is swallowed, so
  "chunked, chunked" is not taken as chunked (`HttpCodings.ChunkedSeen`, `HttpCodings.ChunkedTwice`). The
  flag for transfer codings is also set by longer header names (`HttpHeaders.NameRead`).
- A header without a value is lost, unless it is the last one (`HttpRequests.AllKeptIff`).
- In the recursive mutex two threads can have the count 1 at the same time (`RecursiveMutex.Window`): a
  thread is counted without the mutex exactly while its outermost unlock has given the mutex back and has
  not lowered the count yet (`RecursiveMutex.CountedWithoutMutex`). Mutual exclusion holds nevertheless.
- In the event table the empty id finds a slot that is not in use: a start and an end of it are granted,
  and a start followed by a clear gives the slot a live id (`EventTable.EmptyIdIsGranted`,
  `EventTable.EmptyIdRevives`; exactly when is in `EventTable.StartFindsBusyIffNamed` and
  `EventTable.EndRemovesIffNamed`). Requests cannot ask for it, because ids come from nonempty pieces of
  the path; direct calls can.
- An event without data breaks the rhythm of the worker's reader, which takes the next event's id for its
  data. A listing is recovered exactly if every event has data (`EventFraming.ReadIffData`,
  `EventFraming.ForeignData`, `EventFraming.BrokerToWorker`).
- SHA-1 of messages of 2^29 bytes or more is not that of the standard, since only 32 bits of the length
  are written (`Sha1.ClosedIsPadded`).
- A mustache block that is never closed is accepted, and jumps to the start of the template
  (`MustacheText.JumpsForwardIffClosed`).
- A mustache name with dots is to be looked up only in the object of the section around it. It is looked
  up outside as well if an inverted section ended before it (`MustacheText.InvertedWidens`), because the
  scan for the section counts the closing of an inverted section and not its opening; exactly when it finds
  a section is in `MustacheText.ReachesIff`.
- A multipart part without headers is written but not read back (`Multipart.PartReadIffHeader`), and
  neither is a message with a part without a name (`Multipart.MessageRead`).
- A key that holds a separator finds every piece whose key means what stands before the separator
  (`QueryString.KeyCutOff`).
- JSON nested deeper than 5000 containers is written but not loaded (`JsonRoundTrip.LoadDump`).


## Model

| member | source | states |
|---|---|---|
| `RoutePatterns.ScanMeans` | Crow/include/crow/routing.h:850-857 | the linear scan finds something exactly when some rule with a nonzero index matches, and what it finds is a match with the smallest such index |
| `RouteUrls.UrlRoundTrip` | Crow/include/crow/routing.h:868-973 | a URL made by filling a pattern with integers, unsigned integers, path components or a rest of the path matches the pattern and gives exactly these values back, by type and in order |
| `RouteUrls.FilledIsFound` | Crow/include/crow/routing.h:835-991 | for a URL made from a pattern the scan never answers "not found", and its index is at most that of the pattern |
| `RouteMatches.TakenIff` | Crow/include/crow/routing.h:872-965 | what each parameter takes, both ways: numbers of the right sign within 64 bits with all their digits, a component up to the next slash, or the rest |
| `RouteMatches.MatchIff` | Crow/include/crow/routing.h:868-983 | a URL matches a pattern exactly if it can be cut into pieces that fit the steps, and the parameters are then the values of the pieces |
| `RouteMatches.GivenInOrder` | Crow/include/crow/routing.h:868-965 | each list of parameters has the values of its type in the order of the URL |
| `RouteTrie.Find` | Crow/include/crow/routing.h:835-991 | the backtracking search gives the index and parameters of a linear scan over the rules below the node, in tree order, and gives the shared parameter lists back unchanged |
| `RouteTrie.FindChild` | Crow/include/crow/routing.h:868-983 | one child: push, recurse and pop amount to a scan over the rules that begin with the step into this child |
| `RouteTrie.MergeKeeps` | Crow/include/crow/routing.h:759-766 | merging a simple node with its only child keeps every rule, in order, and makes the tree smaller |
| `RouteTrie.OptimizeNode` | Crow/include/crow/routing.h:755-776 | optimising a subtree keeps its rules and their order as the parent sees them, leaves no node that could be merged, never makes the tree larger, and ends |
| `RouteAdd.PatternRoundTrip` | Crow/include/crow/routing.h:1005-1078 | reading a written pattern gives its steps back: no parameter name is the beginning of another |
| `RouteTexts.NamesRead` | Crow/include/crow/routing.h:1016-1058 | each of the seven names of parameters, spelled out, is read as its type wherever it stands first in a pattern |
| `RouteTexts.AddAndSearch` | Crow/include/crow/routing.h:993-1084 | from the text of a pattern to the answer: once it is added, a URL that fits it gets an index at most its own, and with that index, if no other pattern has it, exactly the values in the URL |
| `RouteTexts.EventsRoute` | url.cpp:6-7 | the route of the listing: worker and group are the two components of the path, in this order |
| `RouteAdd.SetRule` | Crow/include/crow/routing.h:1080-1084 | setting the index of a node without one adds exactly one rule to the whole tree, made of the steps that lead to the node |
| `RouteAdd.RuleOnlyThere` | Crow/include/crow/routing.h:1049-1056 | in a tree that was not optimised a rule can only sit at the end of its own steps, so a pattern is found again by walking it |
| `RouteIndex.AnyOrder` | Crow/include/crow/routing.h:850-857 | two lists with the same rules in different orders give the same index, and the same parameters unless several rules share this index |
| `RouteIndex.Trie.Walk` | Crow/include/crow/routing.h:999-1079 | walking a pattern makes the missing nodes, changes no rule, and ends at the node whose steps are the pattern |
| `RouteIndex.Trie.Add` | Crow/include/crow/routing.h:999-1084 | adding succeeds exactly if the same pattern is not there yet; then the rule is added and nothing else, and a failed add changes no rule |
| `RouteIndex.Trie.Optimize` | Crow/include/crow/routing.h:745-751 | optimising keeps all rules and their order, and all subtrees become compact |
| `RouteIndex.Trie.Validate` | Crow/include/crow/routing.h:827-832 | validation fails exactly if the root is not simple, and else optimises without changing any rule |
| `RouteIndex.Trie.Search` | Crow/include/crow/routing.h:993-996 | after any sequence of adds, optimised or not, the answer is the smallest index whose pattern matches (0 if none) and, unless this index was given twice, exactly the parameters its pattern extracts |
| `HttpRun.RunSplit` | Crow/include/crow/http_parser_merged.h:749-1887 | reading bytes one by one does not depend on where the input is cut |
| `HttpReceive.ReceiveJoined` | Crow/include/crow/parser.h:30-101 | the accumulators of the owner (URL, headers, body) end up the same however the data callbacks were cut into pieces |
| `HttpParser.Parser.OnHeaderField` | Crow/include/crow/parser.h:41-59 | a header name in pieces is appended, a new one stores the header before it |
| `HttpParser.Parser.OnHeadersComplete` | Crow/include/crow/parser.h:75-87 | the last header is stored and the connection flags are set from version and headers |
| `HttpParser.Parser.FieldText` | Crow/include/crow/http_parser_merged.h:1106-1227 | the inner loop over a header name, with its skip over unrecognised names, follows the byte-at-a-time run although it counts the bytes late |
| `HttpParser.Parser.SkipValue` | Crow/include/crow/http_parser_merged.h:1369-1387 | the inner scan over an unrecognised value, which stops at the header limit, follows the byte-at-a-time run |
| `HttpParser.Parser.ScanValue` | Crow/include/crow/http_parser_merged.h:1334-1509 | a header value is read up to the end of its line or of the buffer, with the callback still owed recorded by the mark |
| `HttpParser.Parser.ReadIdentity` | Crow/include/crow/http_parser_merged.h:1716-1751 | a body with a length is read in one piece per buffer, as if read byte by byte |
| `HttpParser.Parser.ReadChunk` | Crow/include/crow/http_parser_merged.h:1844-1865 | chunk data is read in one piece per buffer, as if read byte by byte |
| `HttpParser.Parser.Execute` | Crow/include/crow/http_parser_merged.h:633-1911 | executing a whole buffer, with its marks, inner loops and late counting, ends where the byte-at-a-time run ends: same record, same callbacks when neighbouring pieces are joined, and an error exactly when that run has one |
| `HttpParser.Parser.Feed` | Crow/include/crow/parser.h:110-132 | feeding a buffer advances the run by these bytes; after the message is complete it does nothing |
| `HttpParser.Parser.Clear` | Crow/include/crow/parser.h:139-148 | the next message starts with an empty request and the start state, and with all other fields of the record as they were left |
| `HttpRequestLine.MethodNames` | Crow/include/crow/common.h:110-155 | the 34 names of methods, spelled out, in the order of their numbers |
| `HttpRequestLine.MethodRead` | Crow/include/crow/http_parser_merged.h:811-862 | the guesses letter by letter end at the method whose name stands there, and this one is handed on |
| `HttpRequestLine.TargetRead` | Crow/include/crow/http_parser_merged.h:863-940 | a target in origin form is handed on as it is written |
| `HttpRequestLine.RequestLineRead` | Crow/include/crow/http_parser_merged.h:768-1062 | a request line gives exactly the method, the target and the version that are written |
| `HttpHeaderLines.LineRead` | Crow/include/crow/http_parser_merged.h:1077-1560 | a header line, after any other: the owner is told its name and value, and it sets only the flag or the length that it says |
| `HttpHeaderLines.ConnectionMore` | Crow/include/crow/http_parser_merged.h:1465-1500 | the matcher of `Connection` values is at each byte in the state that the text read so far determines |
| `HttpRequests.AllKeptIff` | Crow/include/crow/parser.h:41-59 | the owner keeps all headers exactly if each but the last has a value |
| `HttpRequests.RequestRead` | Crow/include/crow/http_parser_merged.h:768-1751 | a whole request, with any of the methods, any target, version, header lines and a body of the given length: what is handed on is exactly the request that is written, with the flags of its connection, and it completes |
| `HttpRequests.TakeRequest` | Crow/include/crow/parser.h:110-132 | the same of the class: a parser that is fed the text of a request holds the request that is written |
| `HttpRequests.HeadText` | Crow/include/crow/http_parser_merged.h:768-1062 | the text of a request, spelled out |
| `HttpRequests.RecognisedIs` | Crow/include/crow/http_parser_merged.h:1077-1228 | the names of the headers that are recognised, spelled out; `Proxy-Connection` counts as `Connection` |
| `HttpRequests.WordTexts` | Crow/include/crow/http_parser_merged.h:1432-1490 | the words that are recognised in values, spelled out |
| `HttpProperties.RunCompletes` | Crow/include/crow/http_parser_merged.h:1578-1579 | completions are never taken back, and once a message is complete every further byte that is no error completes it again |
| `HttpProperties.SplitExactly` | Crow/include/crow/parser.h:110-132 | feeding two buffers equals feeding them as one exactly if the message is not complete after the first or the parser has stopped there |
| `HttpProperties.CompareSplit` | Crow/include/crow/http_parser_merged.h:633-1911 | two parsers in the same state, one fed a message in two buffers and one in a single buffer: unless the first part completed the message they both fail or both succeed, and then agree on the parser record, the joined callbacks and the collected request |
| `HttpProperties.RunSound` | Crow/include/crow/http_parser_merged.h:1390-1393 | in every run the assertions about chunks, bodies and header names hold; the one for a `Connection` value fails exactly if the run comes to a byte below the header limit at which only bytes that pass for white space were seen of the value |
| `HttpProperties.ZeroByteAsserts` | Crow/include/crow/http_parser_merged.h:1313-1393 | a `Connection` value that begins with the byte 0 and goes on reaches that assertion |
| `HttpAssertions.NoZeroNoAssert` | Crow/include/crow/http_parser_merged.h:1313-1393 | an input without the byte 0, however it is cut, makes no assertion fail |
| `HttpAssertions.AssertsIffProvoked` | Crow/include/crow/http_parser_merged.h:1265-1393 | over a whole `Connection` value on one line the assertion fails exactly if the first byte after the leading spaces and tabs is 0 and the next one may stand in a value |
| `HttpHeaders.NameRead` | Crow/include/crow/http_parser_merged.h:1077-1228 | over whole names, in any mixture of cases: exactly the names spelled right are recognised, the record changes in nothing else, and the transfer-coding flag is set by every name that only starts with `Transfer-Encoding` |
| `HttpHeaders.KnownMore` | Crow/include/crow/http_parser_merged.h:1117-1211 | the letter-by-letter matcher is at each letter in the state that the whole text read so far determines |
| `HttpCodings.ChunkedSeen` | Crow/include/crow/http_parser_merged.h:1265-1549 | over every value on one line: the body counts as chunked exactly if the last element is the word and is looked at, which depends on the elements before it |
| `HttpCodings.LastDecides` | Crow/include/crow/http_parser_merged.h:1432-1463 | after elements that begin with a letter of a token and are neither the word nor a beginning of it, the last element decides |
| `HttpCodings.ChunkedTwice` | Crow/include/crow/http_parser_merged.h:1473-1476 | the list "chunked, chunked" is not recognised, although "chunked" and "chunked, chunked, chunked" are |
| `HttpCodings.CodedRequest` | Crow/include/crow/http_parser_merged.h:1573-1714 | from the header line to the end of the body, for every value on one line: a request whose value is recognised delivers its chunks joined and completes once; every other value makes the request fail |
| `HttpBodies.SizeDigits` | Crow/include/crow/http_parser_merged.h:1763-1814 | a chunk size is the hexadecimal value of its digits, without wrap-around, and is refused exactly above a limit that is below the "no length" value |
| `HttpBodies.AllChunks` | Crow/include/crow/http_parser_merged.h:1763-1881 | any list of nonempty chunks delivers the concatenation of their data and leaves the parser ready for the next chunk |
| `HttpBodies.ChunkedBody` | Crow/include/crow/http_parser_merged.h:1573-1581 | a chunked body with its last chunk and empty trailer delivers the concatenation and completes exactly once |
| `HttpBodies.LengthDigits` | Crow/include/crow/http_parser_merged.h:1395-1428 | a content length is the decimal value of its digits, without wrap-around, and is refused exactly above a limit that is below the "no length" value |
| `HttpBodies.IdentityBody` | Crow/include/crow/http_parser_merged.h:1716-1751 | a body of a known length is delivered whole and completes the message, once |
| `MustacheTemplate.CodeFirst` | Crow/include/crow/mustache.h:414-568 | the flat code of a list of items begins with the code of the first item, followed by that of the others at shifted positions |
| `MustacheParse.StepEnd` | Crow/include/crow/mustache.h:457-475 | closing a block patches the jump of its opening and adds a closing that names it, which turns the open code into the code of a tree |
| `MustacheParse.Parse` | Crow/include/crow/mustache.h:414-614 | the loop over the text yields exactly the fragments and actions of the template the text stands for, without the lines of standing tags, or its error; partials and changes of delimiters are answered with an error |
| `MustacheParse.ClosedIsTree` | Crow/include/crow/mustache.h:414-568 | if all blocks are closed the compiled code is that of a tree |
| `MustacheTrim.RemoveStandalones` | Crow/include/crow/mustache.h:570-614 | the loop from the last tag to the first, which shortens texts it looks at again, cuts every text as the tags around it say that stand on a line of their own in the template as it was |
| `MustacheTrim.StandsIffOwnLine` | Crow/include/crow/mustache.h:570-605 | a tag is taken to stand exactly if its line holds only spaces beside it, and what is left of the texts is what is before and after this line |
| `MustacheText.TrimmedIsTree` | Crow/include/crow/mustache.h:570-614 | taking out lines in the code gives the code of a tree with the same blocks and tags |
| `MustacheText.TemplateRead` | Crow/include/crow/mustache.h:414-568 | for every template that can be written, reading its text gives the template back with no block left open; the lines of standing tags are taken out after that |
| `MustacheText.TreeForward` | Crow/include/crow/mustache.h:448-484 | in compiled trees every opening jumps forward, inside the code, to a closing that names it, so the ranges nest |
| `MustacheText.JumpsForwardIffClosed` | Crow/include/crow/mustache.h:448-484 | all openings jump forward exactly if no block was left open; an unclosed one keeps its jump to the start |
| `MustacheRender.FindContext` | Crow/include/crow/mustache.h:88-150 | a name is looked up from the innermost context outward, and one with dots from object to object, in the top context only if that is asked for |
| `MustacheSafe.InnermostCounts` | Crow/include/crow/mustache.h:99-107 | what is found is in the innermost context from which the names lead on, and nothing is found exactly if there is none |
| `MustacheSafe.NamesAreParts` | Crow/include/crow/mustache.h:110-124 | a name is cut at its dots and nowhere else |
| `MustacheRender.ScanItems` | Crow/include/crow/mustache.h:173-198 | the scan back over the code of items finds no section, but every inverted section among them hides one of the sections around them |
| `MustacheRender.Renderer.IsTagInsideObjectBlock` | Crow/include/crow/mustache.h:173-198 | the scan with its count of closings tells whether a section is still open that no inverted section hides, below an object |
| `MustacheText.ReachesIff` | Crow/include/crow/mustache.h:173-198 | the scan finds a section exactly if around the tag there is one in which, since its opening, as many inverted sections have ended as sections are open inside it |
| `MustacheText.InvertedWidens` | Crow/include/crow/mustache.h:173-198 | a name with dots in an outermost section entered with an object is looked up in this object only, unless an inverted section ended before it there; then it is looked up outside too |
| `MustacheRender.Escape` | Crow/include/crow/mustache.h:153-176 | escaping appends the escaped text |
| `MustacheSafe.EscapedHarmless` | Crow/include/crow/mustache.h:153-176 | an escaped text holds none of the characters that are special in HTML |
| `MustacheSafe.EscapedInjective` | Crow/include/crow/mustache.h:153-176 | different texts are escaped differently |
| `MustacheSafe.EscapeTable` | Crow/include/crow/mustache.h:153-171 | the escape of each special character, spelled out, and that others are left as they are |
| `MustacheSafe.TagPrints` | Crow/include/crow/mustache.h:241-246 | a plain tag prints a string without special characters, a raw tag prints it as it is |
| `MustacheSafe.TextTagText` | Crow/include/crow/mustache.h:199-266 | a text, a tag and a text give these three in order, for every kind of value |
| `MustacheSafe.RenderedSafe` | Crow/include/crow/mustache.h:199-344 | a template without raw tags, whose texts and number texts hold no special characters, renders to text without them, whatever the strings of the context are |
| `MustacheSafe.OneOfBoth` | Crow/include/crow/mustache.h:267-333 | of a section and the inverted section of the same name exactly one is rendered, and which one each value decides |
| `MustacheText.TagSyntax` | Crow/include/crow/mustache.h:512-560 | how plain and raw tags are written, spelled out |
| `MustacheText.BlockSyntax` | Crow/include/crow/mustache.h:446-484 | how sections and inverted sections are written, spelled out |
| `MustacheRender.EachAppend` | Crow/include/crow/mustache.h:303-312 | a section is rendered for the elements of a list one after the other, in order |
| `MustacheRender.Renderer.RenderTag` | Crow/include/crow/mustache.h:224-266 | a tag prints its value or fails if the value cannot be printed; for a string a raw tag prints just the string, and what a plain tag prints holds no special character |
| `MustacheRender.Renderer.RunElse` | Crow/include/crow/mustache.h:267-295 | an inverted block is entered exactly if there is nothing to render a section with, and else jumped over |
| `MustacheRender.Renderer.RunOpen` | Crow/include/crow/mustache.h:296-333 | a section is run once for every element of a list, once for another value, or jumped over |
| `MustacheRender.Renderer.RenderInternal` | Crow/include/crow/mustache.h:199-344 | for every tree and every context the loop over the flat code ends, writes exactly what the recursive meaning of the tree says, and gives the context stack back |
| `MustacheText.Render` | Crow/include/crow/mustache.h:364-412 | from text to output: a text with all blocks closed renders to the meaning of its tree without the lines of standing tags, or reports its error; without raw tags no string of the context brings a special character into the output; partials, changes of delimiters and lambdas are left out |
| `RecursiveMutex.StepInv` | tasker_manager.cpp:8-42 | every step of every thread keeps the invariant of the lock |
| `RecursiveMutex.RunInv` | tasker_manager.cpp:8-42 | the invariant holds after every schedule of any number of threads |
| `RecursiveMutex.MutualExclusion` | tasker_manager.cpp:20-42 | in every interleaving at most one thread is between its outermost lock and its outermost unlock |
| `RecursiveMutex.CountIsDepth` | tasker_manager.cpp:8-19 | a thread has at most one entry, and between calls its number is the nesting depth |
| `RecursiveMutex.ReleasedByHolder` | tasker_manager.cpp:20-42 | each of the two plain mutexes is released only by the thread that holds it |
| `RecursiveMutex.NoDeadlock` | tasker_manager.cpp:20-42 | some thread in a call can always go on, or all of them wait for one that is outside of any call, holds the mutex and can unlock |
| `RecursiveMutex.CountedWithoutMutex` | tasker_manager.cpp:31-42 | in every run, a thread has a positive number without holding the mutex exactly while its outermost unlock has given the mutex back and has not lowered the number yet |
| `RecursiveMutex.Window` | tasker_manager.cpp:31-42 | such a run: two threads both have number 1, because the number is lowered only after the mutex was given back |
| `RecursiveMutex.ScopeLock.Leave` | include/tasker_manager.h:73-95 | whatever was called on the guard, its locks and unlocks alternate and are balanced when it goes out of scope |
| `EventTable.GroupClients.AddNewEvent` | tasker_manager.cpp:247-273 | the new event takes the first free slot or a new one, and no other slot changes |
| `EventTable.GroupClients.StartEvent` | tasker_manager.cpp:185-204 | a start marks the event as in process and answers 0 only if it was not; an unknown id changes nothing |
| `EventTable.GroupClients.ClearEvent` | tasker_manager.cpp:205-228 | an event in process is put back under a new id with one restart more; another one stays as it is |
| `EventTable.GroupClients.EndEvent` | tasker_manager.cpp:229-246 | the slot is emptied, or nothing changes if the id is unknown |
| `EventTable.RunInv` | tasker_manager.cpp:185-273 | in every run with nonempty ids and new generated ids, busy events have distinct ids and the other slots are blank |
| `EventTable.StartedOnce` | tasker_manager.cpp:185-204 | a start is answered with 0 at most once for each id, in every run |
| `EventTable.GoneForGood` | tasker_manager.cpp:205-246 | an event that was put back while in process, or ended, is never reachable by that id again |
| `EventTable.OfferedIffStartable` | tasker_manager.cpp:293-294 | the listing offers an id exactly if a start of it would be answered with 0 |
| `EventTable.CountIsAddsLessEnds` | tasker_manager.cpp:229-273 | the number of busy events is the number of adds minus the number of ends that succeeded |
| `EventTable.CarriesItsAdd` | tasker_manager.cpp:205-273 | in every fair run each event in use carries the meta and data of the add it goes back to, through all changes of its id, and counts how often it was put back; both are told from the list of operations alone |
| `EventTable.TableIsMap` | tasker_manager.cpp:185-273 | in every fair run the slots hold exactly the events of a map that knows no slots |
| `EventTable.ListsTheLive` | tasker_manager.cpp:293-294 | the listing offers exactly the events of the map that are not in process, with what was added for them |
| `EventTable.AnswersAre` | tasker_manager.cpp:185-246 | what start, clear and end answer, in numbers, after any fair run |
| `EventTable.StartFindsBusyIffNamed` | tasker_manager.cpp:192-200 | a start that is answered with 0 finds an event in use exactly if it names an id |
| `EventTable.EndRemovesIffNamed` | tasker_manager.cpp:236-244 | an end that is granted removes an event exactly if it names an id: the empty id is granted for an empty slot |
| `EventTable.EmptyIdIsGranted` | tasker_manager.cpp:192-244 | a run after which a start and an end of the empty id, which only a direct call of the table can ask for, are answered with 0 although there is no event |
| `EventTable.EmptyIdRevives` | tasker_manager.cpp:205-228 | the run goes on: a start and a clear of the empty id give the slot that is not in use a live id, which breaks the invariant of the table |
| `EventFraming.GetEventsJson` | tasker_manager.cpp:275-315 | the text lists the events in use that are not in process, in order, each object with its length before it, or `{}` for none |
| `EventFraming.RecordText` | tasker_manager.cpp:293-311 | one event as it is listed, spelled out |
| `EventFraming.GetEvents` | include/connector_manager.h:865-921 | the reading loop, which overwrites one character at a time, gives the response back unchanged and yields what its lengths say |
| `EventFraming.ListIsRead` | include/connector_manager.h:878-921 | whatever braces, digits or newlines the objects hold, the reader recovers exactly the listed events, in order, without those it knows |
| `EventFraming.ReadIffData` | include/connector_manager.h:878-921 | a list of new events with sound parts is recovered exactly if every event has data |
| `EventFraming.ForeignData` | include/connector_manager.h:891-919 | the first event without data, if another one follows, is delivered with the id of the other one for its data |
| `EventFraming.ForeignDataAt` | include/connector_manager.h:891-919 | three events of which the middle one has no data: the second task carries the id object of the third event |
| `EventFraming.NoDataNoTask` | tasker_manager.cpp:306-310 | an event without data at the end of the list is not delivered |
| `EventFraming.BrokerToWorker` | include/connector_manager.h:865-921 | after any fair run of the broker, with an empty listing or not, a worker that knows none of the listed events reads exactly these if and only if all of them have data |
| `EventFraming.Poll` | include/connector_manager.h:865-921 | the two procedures one after the other: the listing is written, put into a buffer and read, and the worker has exactly the listed events if and only if all of them have data; each task carries the meta and data of its add |
| `WebSocketFrames.BuildHeader` | Crow/include/crow/websocket.h:231-252 | the header has the length in the shortest of its three forms, big-endian |
| `WebSocketFrames.MaskedTwice` | Crow/include/crow/websocket.h:546-549 | masking twice gives the payload back |
| `Bytes.XorBit` | Crow/include/crow/websocket.h:546-549 | each bit of the exclusive or is set exactly if the two bytes differ in it |
| `WebSocketFrames.MaskedBits` | Crow/include/crow/websocket.h:546-549 | each bit of a masked payload is set exactly if it differs from the bit of the mask, byte by byte in turn |
| `WebSocketFrames.OnTheWire` | Crow/include/crow/websocket.h:231-252 | every byte of a frame, for payloads of every length, with a mask or without |
| `WebSocketFrames.FirstByte` | Crow/include/crow/websocket.h:550-615 | the first bytes of texts, binary messages, continuations, pings and pongs, spelled out |
| `WebSocketFrames.AllDelivered` | Crow/include/crow/websocket.h:541-624 | for every sequence of whole or fragmented messages with pings and pongs in between, exactly the messages are handed on, in order and with their kind, and exactly the pings are answered |
| `WebSocketConnection.Connection.ReadLength` | Crow/include/crow/websocket.h:364-436 | the two long forms of a length are read back |
| `WebSocketConnection.Connection.ReadPayload` | Crow/include/crow/websocket.h:485-530 | payload reads of any sizes put the fragment together and hand it on when it is complete |
| `WebSocketConnection.Connection.DoRead` | Crow/include/crow/websocket.h:282-540 | every read makes progress within a frame, and the last one delivers the frame and leaves what follows it unread; reads of payloads are of any size, reads of headers are complete |
| `WebSocketConnection.Connection.Serve` | Crow/include/crow/websocket.h:282-540 | from the encoding of any frames, masked or not, of any sizes up to the limit, exactly these frames are taken; reads of payloads are of any size, reads of headers are complete |
| `WebSocketConnection.Exchange` | Crow/include/crow/websocket.h:282-624 | what one side sends in frames the other side hands on as exactly the messages that were sent; reads of payloads are of any size, reads of headers are complete |
| `WebSocketConnection.SendData` | Crow/include/crow/websocket.h:691-697 | what is written for a message, a built header and the payload as it is, is the encoding of one final frame without a mask |
| `WebSocketConnection.Talk` | Crow/include/crow/websocket.h:172-252 | messages sent one after the other with built headers are handed on by the other side in order, each with its kind |
| `Middleware.PackedIs` | Crow/include/crow/routing.h:67-71 | packing sorts the indices and drops duplicates, and loses none |
| `Middleware.Criteria.Enabled` | Crow/include/crow/middleware.h:282-328 | asked for all indices upward or downward, the sliding criterion selects exactly the packed set |
| `Middleware.Exchange.CallHelper` | Crow/include/crow/middleware.h:136-172 | the middlewares are asked in order up to the first that completes the response, and if one does, those asked are told in reverse order |
| `Middleware.Exchange.AftersHelper` | Crow/include/crow/middleware.h:174-200 | the selected middlewares are told in reverse order, each once |
| `Middleware.Exchange.HandleRule` | Crow/include/crow/routing.h:1699-1733 | a rule with its own middlewares: the handler runs exactly if none of them completes the response |
| `Middleware.Exchange.CompleteRequest` | Crow/include/crow/http_connection.h:200-213 | the global middlewares are told when the response is completed, if that is still due, and only once |
| `Middleware.Exchange.Handle` | Crow/include/crow/http_connection.h:160-213 | over the whole request: asked are all global and local middlewares up to the first that completes the response, the handler runs exactly if none does, and exactly those asked are told, once each, in reverse order |
| `Sha1.ZerosFit` | Crow/include/crow/TinySHA1.hpp:84-95 | the number of zeros is the only one below 64 that leaves room for exactly the length at the end of a block |
| `Sha1.PaddedIsBlocks` | Crow/include/crow/TinySHA1.hpp:58-66 | a padded message is cut into whole blocks and nothing of it is dropped |
| `Sha1.ChopFlat` | Crow/include/crow/TinySHA1.hpp:58-66 | cutting joined blocks gives the blocks back |
| `Sha1.SHA1.Round` | Crow/include/crow/TinySHA1.hpp:158-180 | one round of the class is one step of the standard |
| `Sha1.SHA1.ProcessBlock` | Crow/include/crow/TinySHA1.hpp:140-188 | a block is folded into the digest as the compression function of the standard says |
| `Sha1.SHA1.ProcessByte` | Crow/include/crow/TinySHA1.hpp:58-66 | the message grows by the byte, and a full block is folded in at once |
| `Sha1.SHA1.ProcessBytes` | Crow/include/crow/TinySHA1.hpp:67-80 | any splitting of a message into calls has the same effect as its bytes |
| `Sha1.SHA1.Pad` | Crow/include/crow/TinySHA1.hpp:81-95 | the padding leaves room for exactly eight bytes at the end of a block |
| `Sha1.ClosedIsPadded` | Crow/include/crow/TinySHA1.hpp:96-103 | writing only the low 32 bits of the length gives the padding of the standard exactly for messages below 2^29 bytes |
| `Sha1.SHA1.GetDigest` | Crow/include/crow/TinySHA1.hpp:81-107 | for a message of any length, with the byte count wrapping around at 64 bits, what is hashed is the message closed with the low 32 bits of its length, and this ends on a block boundary; below 2^29 bytes that is the padded message and the digest is the hash of the standard |
| `Sha1Example.DigestOfAbc` | Crow/include/crow/TinySHA1.hpp:140-188 | the digest of the text "abc" is the one of the standard |
| `JsonText.EscapeRoundTrip` | Crow/include/crow/json.h:36-68 | unescaping undoes escaping for every byte string |
| `JsonText.Writer.DumpInternal` | Crow/include/crow/json.h:1829-1954 | the writer appends the text of the value |
| `JsonRoundTrip.LoadDump` | Crow/include/crow/json.h:870-1254 | loading what was written gives the value back if at most 5000 containers are nested in it and fails if there are more |
| `JsonRoundTrip.FitsIff` | Crow/include/crow/json.h:957-961 | a value fits at a depth exactly if two levels for each nested container stay within the limit |
| `JsonRoundTrip.IntegerRead` | Crow/include/crow/json.h:396-426 | an integer of 64 bits that was written is read back by the type that its text shows, which is unsigned unless it is negative; read as the other type it is the same exactly if it is in the range of that type |
| `JsonSpaces.BlanksChangeNothing` | Crow/include/crow/json.h:891-1254 | blanks between the tokens, of any kind and length and different at each place, change nothing: such a text is loaded as the text that is written without |
| `JsonSpaces.Utf8Denotes` | Crow/include/crow/json.h:495-526 | an escape of a code gives the bytes that stand for it, as many as it needs |
| `JsonSpaces.HexTexts` | Crow/include/crow/json.h:497-503 | the digits of an escape in either case, spelled out |
| `JsonSpaces.EscapeTexts` | Crow/include/crow/json.h:486-494 | the escapes of one character, spelled out |
| `JsonSpaces.Tokens` | Crow/include/crow/json.h:1829-1954 | how values are written, spelled out |
| `JsonLoad.Unescape` | Crow/include/crow/json.h:476-538 | unescaping in place yields the unescaped text, writes nothing outside of the string, never overtakes what it reads, and does nothing the second time |
| `JsonLoad.Parser.DecodeString` | Crow/include/crow/json.h:897-956 | a string is found up to its first unescaped quote, its end is marked in the buffer, and the flag before it says whether there are escapes |
| `JsonLoad.Parser.DecodeNumber` | Crow/include/crow/json.h:997-1123 | a number is read as far as the automaton accepts |
| `JsonLoad.Parser.DecodeValue` | Crow/include/crow/json.h:1124-1177 | the recursive loader over one shared buffer yields ranges that denote exactly what the grammar says, and writes nothing before its own place |
| `JsonLoad.LoadText` | Crow/include/crow/json.h:1255-1266 | loading a text fails exactly if the grammar rejects it, and else denotes the value it says |
| `JsonLoad.TextOf` | Crow/include/crow/json.h:455-474 | the text of a loaded string is its value, and asking again gives the same |
| `JsonLoad.WriteAndLoad` | Crow/include/crow/json.h:870-1266 | writing a value and loading the text yields ranges that denote the value, exactly up to 5000 nested containers |
| `JsonLoad.Items.EmplaceBack` | Crow/include/crow/json.h:718-736 | an item is appended to the growing array and none is lost; the array at most doubles and grows by at most 60000 places |
| `Base64.Encode` | Crow/include/crow/utility.h:569-618 | the loop over groups of three bytes yields the encoding of RFC 4648 in either alphabet |
| `Base64.Decode` | Crow/include/crow/utility.h:620-703 | the loop over groups of four characters yields the bytes they stand for |
| `Base64.EncodedLength` | Crow/include/crow/utility.h:569-603 | the encoded length is four times the number of groups of three bytes, rounded up |
| `Base64.RoundTrip` | Crow/include/crow/utility.h:569-703 | decoding undoes encoding for every nonempty byte string, in both alphabets, with the padding kept or stripped |
| `Base64.Alphabets` | Crow/include/crow/utility.h:569-618 | the two alphabets, spelled out |
| `Base64.SameBits` | Crow/include/crow/utility.h:583-590 | the four groups of six bits are the 24 bits of the three bytes, in order |
| `Base64.WrittenAtEnd` | Crow/include/crow/utility.h:592-603 | what is written for one or two bytes at the end, with the padding |
| `Filenames.SanitizedIsClean` | Crow/include/crow/utility.h:706-787 | the result has at most 255 bytes, no replaced character, no leading separator, and no component that is `..` or a device name |
| `Filenames.UnchangedIffClean` | Crow/include/crow/utility.h:706-787 | a name is left as it is exactly if it is harmless, so a second pass changes nothing |
| `Filenames.CleanMeans` | Crow/include/crow/utility.h:706-787 | harmless means at every place: no bad character, and no reserved name after a separator |
| `Filenames.SanitizeSpecialFile` | Crow/include/crow/utility.h:717-739 | a reserved name is cut down to one character exactly if it ends there or before a dangerous character |
| `Filenames.SanitizeFilename` | Crow/include/crow/utility.h:706-787 | the scan, which erases characters while it goes on, yields the harmless name |
| `Filenames.SpelledOut` | Crow/include/crow/utility.h:706-787 | the characters that are replaced and the names that are cut down, spelled out |
| `Filenames.OnlyBadReplaced` | Crow/include/crow/utility.h:706-787 | in a short name without reserved components only the bad characters are replaced, each by an underscore, and nothing else changes |
| `Multipart.PartReadIffHeader` | Crow/include/crow/multipart.h:201-212 | a written part with clean headers is read back exactly if it has a header at all |
| `Multipart.MessageRead` | Crow/include/crow/multipart.h:171-199 | parts with clean headers, and bodies in which the delimiter does not occur early, are read back with the same headers, parameters and bodies exactly if every part has a `Content-Disposition` with a name; a part that has headers and no name ends the reading |
| `Multipart.MessageText` | Crow/include/crow/multipart.h:96-128 | a message as it is written, spelled out |
| `MultipartMessage.Message.constructor` | Crow/include/crow/multipart.h:130-142 | the new message holds the parts, and its map every part under its name |
| `MultipartMessage.Message.Dump` | Crow/include/crow/multipart.h:96-109 | the message is written part by part between delimiters |
| `MultipartMessage.Message.Parse` | Crow/include/crow/multipart.h:171-199 | the loop that erases what it has read yields the parts and the map from their names, or fails where a header line begins with a separator or a part has no name |
| `MultipartMessage.Message.GetPartByName` | Crow/include/crow/multipart.h:86-93 | a part of the name, whatever the case of its letters, or an empty part exactly if there is none |
| `MultipartMessage.Message.Copy` | Crow/include/crow/multipart.h:96-199 | a message that is written and parsed again has the same parts exactly if every part has a name |
| `QueryString.QsDecode` | Crow/include/crow/query_string.h:146-172 | decoding in place writes the decoded value and its end mark, and nothing outside of its piece |
| `QueryString.DecodingUndoes` | Crow/include/crow/query_string.h:146-172 | decoding undoes percent-encoding, whichever characters are written as they are, as a percent sign and two digits, or as a plus sign |
| `QueryString.QsParse` | Crow/include/crow/query_string.h:100-142 | each of the first pieces ends as key, separator and decoded value, no piece disturbs another, and what stands before the query stays |
| `QueryString.TwoPairs` | Crow/include/crow/query_string.h:100-142 | the query of a URL with two pairs is cut into these two, each with its key and its value |
| `QueryString.QsStrncmp` | Crow/include/crow/query_string.h:52-97 | for every key: equal means the same meaning up to an end, a separator or a bad escape, and for a key without separators and escapes also that the text came to its end |
| `QueryString.KeyCutOff` | Crow/include/crow/query_string.h:52-97 | a key is cut off at a separator in it, and then also finds keys that go on with a bad escape |
| `QueryString.QsK2v` | Crow/include/crow/query_string.h:175-203 | what is found for any key is what stands after the first `=` of the piece that is the nth one with this key, or the empty text at its end, or none |
| `QueryString.FoundMeans` | Crow/include/crow/query_string.h:186-193 | this is the decoded value of a piece with an `=` after its key, and nothing for a piece that is all key |
| `QueryString.Query.constructor` | Crow/include/crow/query_string.h:337-346 | a text is cut into at most 256 pieces, decoded in the buffer |
| `QueryString.Query.Get` | Crow/include/crow/query_string.h:372-376 | from the text to the value: the value of the first piece with the key, or none |
| `QueryString.Query.GetList` | Crow/include/crow/query_string.h:401-416 | from the text to the values: one for each piece with the key, in order |
| `QueryString.HitsAre` | Crow/include/crow/query_string.h:401-416 | the pieces listed are exactly those with the key, each once |
| `DecimalText.AtoiOfDigits` | include/connector_manager.h:880-882 | a length that was written in decimal is read back |
| `DecimalText.Numerals` | tasker_manager.cpp:301-308 | the decimal digits, spelled out |

## Left out

- RouteIndex.Trie.Add: patterns with a `<` that begins no parameter name, on which the source does not terminate, and patterns with the character 0 are excluded by its precondition.
- RouteIndex.Trie.Search: the parameters are claimed only if the index was given once, because index 1 stands for all slash redirects; blueprint indices of a search are not modelled, since the source moves from the list before it returns it.
- RouteMatches.MatchIff: patterns with floating point parameters are excluded, as in `RouteUrls.UrlRoundTrip`.
- RouteUrls.UrlRoundTrip: floating point parameters are not filled in; the parser of floating point numbers is an abstract function that reads a nonempty prefix or nothing.
- RouteTrie.OptimizeNode: a node is a value that owns its children, and a pointer into the tree is a path from its root, so sharing of nodes is not modelled. The 16-bit width of rule indices is not modelled either.
- HttpParser.Parser.Execute: callbacks always return zero, and what they do beyond collecting the request (`handle_url`, `handle_header`, `handle`) is not modelled; a failing assertion is the error `AssertFailed`; when a run fails only the fact of the failure is claimed, not which error is reported.
- HttpRequests.RequestRead: targets are in origin form, and header lines are not continued; a text with transfer codings is covered by `HttpCodings.CodedRequest`, and one with an `Upgrade` header by neither. For `CONNECT` no claim is made about how many bytes are reported as read.
- HttpProperties.CompareSplit: the position of the query in the URL (`qs_point`) is not part of the model; the mark it depends on is not restored when a URL spans buffers.
- HttpBodies.SizeDigits: bytes above 127 count as the digit zero, as in the table of the source, whose last half is not written out.
- HttpCodings.ChunkedSeen: values that are continued on a second line are read by the model but not covered by the lemma.
- HttpAssertions.AssertsIffProvoked: the condition on the bytes is for a value on one line; for several lines the condition is that of `HttpProperties.RunSound`.
- MustacheText.Render: partials with their indentation, lambdas and changes of delimiters are not modelled; rendering is claimed for texts whose blocks are all closed. A closing without an opening is undefined in the source and an error here. A number in a context is the text it is printed as.
- RecursiveMutex.NoDeadlock: calls are balanced, as with the guard: only a thread that has locked may unlock. Fairness of the scheduler is not modelled, so no claim is made that a waiting thread gets its turn.
- EventTable.RunInv: generated ids are given to the operations and assumed to be new; the hash behind them, the clients' groups and the logging are not modelled.
- EventFraming.GetEvents: an object is its text up to the character 0, so an object that is no JSON, on which the source throws, is read on; the results below are about texts whose frames are objects. A length that does not fit an `int` counts as a failure.
- EventFraming.ListIsRead: texts have fewer than ten digits of length, and ids are hexadecimal, so nothing in them is escaped.
- WebSocketConnection.Connection.Serve: reads of headers are complete. The source asks for two bytes with a read that may return one, and does not look at the number it got; what then happens is not modelled, nor are closing and errors of the socket. A reserved opcode is ignored as in the source.
- Middleware.Exchange.Handle: middlewares do nothing but complete the response or not, and the handler completes it; requests that never reach the middlewares (upgrades, missing hosts) are not modelled.
- Sha1.SHA1.GetDigest: the variants that return bytes are not modelled.
- JsonRoundTrip.IntegerRead: the stream that reads a number is modelled as stopping at the bounds of the type, and as negating modulo 2^64 for an unsigned one.
- JsonLoad.LoadText: floating point values, functions, surrogate pairs of `\u` escapes, comparison and lookup of keys, and copies of a value that share its buffer are not modelled; the automaton for numbers is modelled, but no claim is made that it is the grammar of RFC 8259.
- Multipart.MessageRead: the headers and the maps are kept in order, while the source does not say which of several headers of one key, or parts of one name, it finds; the first one is taken for a header. For a part without a name the source dereferences the end of a map, which is undefined; here the reading fails, and the constructor asks for names. The headers of the request itself are not modelled.
- QueryString.QsStrncmp: for a key or a text that ends in a percent sign the source reads one character beyond its end mark; the character does not change the answer and is read as an end mark here.
- QueryString.Query.Get: a value that holds an escaped character 0 ends there for a caller that takes it for a text. Removal of pieces (`pop`) and the lookup of dictionaries (`qs_dict_name2kv`) are not modelled.
- Filenames.SanitizeFilename: only the default replacement is modelled.
- The lock in `include/connector_manager.h`, which records no owner, the buffer of the worker's task list, sockets, timers, TLS, compression, files, MIME tables and the assembly of responses are left out.
- The template machinery of the framework (parameter tags, handler wrapping) is left out: it has types, but no state.
