# Verification of libcocao's core

libcocao is a coroutine server framework. This project models five of its parts in Dafny and proves what
each is relied on for:

1. the streaming HTTP/1.x parser with its URL and host parsers (`Http*.dfy`),
2. the byte array, a linked list of equally large nodes, with its integer and string codecs
   (`FlatBytes`, `FlatRuns`, `ByteBuffer`, `Varint`, `ByteCodec`),
3. the event table of the I/O manager (`IoTable`, `IoSteps`, `IoRuns`, `IoManager`),
4. timers and the timer manager (`TimerSet`, `Timers`),
5. the scheduler's task queue (`SchedulerSteps`, `Schedulers`).

Check everything with `dafny verify dfyconfig.toml`.

## How the models are built

**HTTP parser.** `HttpStep.Step` is one byte of the source's switch, with the same branches, constants and
error codes. `HttpRun.Run` folds it over an input; `Feed` glues adjoining pieces of one item (url, status,
field, value, body), so that a trace does not depend on where the input was cut. `HttpParser.StreamingParser` is
the object of the source: `Execute` runs the real loop over a buffer, with deferred marks, the inner loops over
header names, header values and body bytes, and the deliveries at the end of the buffer. Its class invariant
says that registers and glued callbacks are those of the concatenated input read byte by byte, whatever the
calls were. `HttpGrammar.Monitor` is an independent reference: an automaton over callbacks that counts body
bytes against the announced sizes. `HttpHeads` and `HttpChunks` close the gap between the text of a message and
these sizes: for whole inputs, the digits of a Content-Length line are what on_headers_complete reports and how
many bytes on_body is given, and a chunked body is the data of the chunks that were sent. `HttpOrigins` reads an input
backwards: a reported length comes from a Content-Length line of the same header block.

Messages are described as texts, without the parser: `HttpVersions`, `HttpRequestLines` and `HttpStatusLines` say
what a start line is, `HttpLines` and `HttpBlocks` what header lines are, continued ones included, and what they say,
`HttpMessages` how a body follows. Each text is proved to be read as it stands, and each input that is read is proved
to be such a text (`HttpBlockOrigins`, `HttpMessageOrigins`); so acceptance, keep-alive, upgrade and every callback
are functions of the text. `HttpErrors` says what an error code tells. `HttpExchanges` draws the conclusions for
requests on one connection. URLs are described in the same way by their parts (`HttpUrlText`, `HttpUrlOrigins`), and
so are the targets that the streaming parser takes, which are more (`HttpTargetTexts`).

The loop keeps one mark where the source has five variables; `HttpMarks.OneIsEnough` and `HttpFiveMarks.AtMostOne`
take the five one by one and show that this is the same. Strict mode is modelled, which is the default
(`http_parser.h:52`).

**Byte array.** `ByteBuffer.ByteArray` keeps the linked nodes, the current node and the three counters, and
copies into node memory in place. Its contracts speak of one flat sequence with a cursor, and `FlatRuns`
proves over all runs what such a sequence means.

**I/O manager, scheduler.** A region under a lock is one step. The steps are functions on a state
(`IoSteps`, `SchedulerSteps`); runs are arbitrary sequences of steps of any number of threads; the classes
change their fields in place and are proved to perform those steps. The kernel's interest set is a map, its
answers are parameters, and what `epoll_wait` returned may be out of date when it is dispatched.

**Timers.** `std::set` is a sequence that is kept strictly sorted by deadline and address; `lower_bound`,
`find`, `insert` and `erase` are methods on it. Time and addresses are parameters. 64-bit additions wrap.

## Where the source differs from its intention

Several lines cannot mean what they say. `Common.Code` selects the text a model follows: `AsWritten` keeps the
line, `Intended` repairs it. Each line has the exact condition under which it does no harm, and an input at which
it does.

| source | as written | holds exactly when | fails at |
|---|---|---|---|
| `libcocao/bytearray.cc:826` | the number of new nodes is rounded down, and the current node stays null when the array was full | `ByteBuffer.RoundsExactly`, in the contracts of `Write`, `GetWriteBuffers`, `Receive` | `ByteBuffer.FlooredGrowthFails` |
| `libcocao/bytearray.cc:189` | the value is not shifted, so that the loop runs off its ten bytes | the value is below 128: `ByteCodec.Pack64` | every other value |
| `libcocao/bytearray.cc:247` | the length of a string is written with 8 bytes, and read as a varint | never: `ByteCodec.StringRoundTrip` | every string |
| `libcocao/bytearray.cc:553`, `libcocao/bytearray.cc:557-560` | the bound of the positional read is an unsigned difference, which a position behind the size passes; the read starts in the current node | the request is too long even for that bound, or the position is not behind the size and lies in that node, which does not matter for a read of no bytes: `ByteBuffer.ReadAtRight` | `ByteBuffer.PositionalWitnesses` |
| `libcocao/bytearray.cc:748` | the positional view counts from the cursor | the position is the cursor or the request is short; behind the size, nothing is asked for or readable: `ByteBuffer.ViewLengthRight` | `ByteBuffer.PositionalWitnesses` |
| `libcocao/iomanager.cc:197` | the first event of a descriptor asks the kernel to delete | never, but for the pipe's end that the constructor has made the kernel watch: `IoRuns.AsWrittenInert`, `IoRuns.WatchedIsDeleted` | every other run |
| `libcocao/iomanager.cc:150-174` | all that fired is triggered once a part of it is registered | all that fired is registered: `IoSteps.DispatchKeeps` | `IoRuns.DispatchCrash` |
| `libcocao/iomanager.cc:190-193` | the resize after a stale check may shrink the table | no row that is cut off has an event: `IoRuns.ResizeKeeps` | `IoRuns.StaleResize` |
| `libcocao/timer.cc:18-19`, `libcocao/timer.cc:102` | the probe has deadline 0, and the early return tests for equality | `TimerSet.WrittenIsExact`, in the contract of `ListExpired` | `TimerSet.OverdueIsMissed` |

The two inputs for the I/O manager are runs in which line 197 is repaired, since with that line no registration
ever succeeds and the other two lines have nothing to harm.

Further slips are kept in both texts and stated in the contracts.

- Reading no bytes at the very end of the capacity follows the null current node
  (`libcocao/bytearray.cc:521-522`, `ByteBuffer.ByteArray.Read`).
- Octets from 0x80 on count as the hexadecimal digit 0 in a chunk size, as the table lists 128 of its 256 entries
  (`http_parser.c:224-241`, `HttpLength.AcceptedHexDigits`).
- In a Connection value (`http_parser.c:1576-1655`) an item that breaks off inside a keyword hides the comma behind
  it, as in `k,close`, while an empty item, or one that begins with no token character, ends the search; a tab is
  such a character, as it is compared in lower case. `HttpValues.ConnectionExact` says exactly which flags are set,
  `MissedExactly` when a named one is missed, `OverExactly` what leads there, and `CloseIsMissed` is an input.
- Where a Connection value is continued on a further line, the item in front of the line end is not counted unless
  a comma stands there, and a continued Transfer-Encoding value never makes a message chunked
  (`http_parser.c:1681-1712`, `HttpValues.ConnectionFolded`, `HttpValues.TransferFolded`).
- The parser applies section 4.4 of RFC 2616 in another order than the standard: `HttpLength.RfcDeviation`, with
  the input `HttpWitnesses.NoContentWithBody`.
- The first byte of a header value is not checked, so that any byte but CR, LF, a blank or a tab may stand there
  (`http_parser.c:1388-1467`, `HttpValues.StartsValue`).
- A CONNECT request is taken with any target that begins with host bytes or even with a path, while the URL splitter
  wants a host and a port (`http_parser.c:1016-1087`, `HttpTargetTexts.TargetExactly`, `HttpUrlText.ConnectAccepted`).
- A second call without data completes a message again that ends with the connection:
  `HttpParser.SecondFinishBreaksOrder`, with the input `HttpWitnesses.TwoEnds`.

Node memory is never allocated (`libcocao/bytearray.cc:16-20`), `writeint32` calls a two-argument function with one
(`libcocao/bytearray.cc:154`) and one view method lacks a semicolon (`libcocao/bytearray.cc:778`): these are
modelled as meant. Zigzag negates the smallest number and doubles numbers from 2^30 (2^62) on, which are signed
overflows in the source (`libcocao/bytearray.cc:127-139`); `Varint.EncodeZigzag` lets them wrap.

## Model

| member | source | states |
|---|---|---|
| `HttpParser.StreamingParser.Execute` | `libcocao/http/http-parser/http_parser.c:638-2084` | a call consumes what the bytes one after the other mean: same registers, same glued callbacks; it stops behind a message that switches protocols; it fails exactly if a byte up to there fails, so never behind such a message; callbacks stay a beginning of well-formed messages |
| `HttpParser.StreamingParser.Finish` | `libcocao/http/http-parser/http_parser.c:660-679` | the call without data: it completes a message that ends with the connection, is harmless between messages, and is an error elsewhere |
| `HttpParser.Loop` | `libcocao/http/http-parser/http_parser.c:707-2083` | the outer loop with the deliveries after it refines the byte-by-byte meaning of the buffer, failures included: the failing byte comes before any byte that leaves |
| `HttpParser.FailsExactly` | `libcocao/http/http-parser/http_parser.c:638-2084` | the contract of a call decides between success and failure: it fails exactly if some byte fails and no byte before it leaves |
| `HttpParser.FinishAccepted` | `libcocao/http/http-parser/http_parser.c:662-667` | the first end of input brings the message that waited for it to its end, and closes the connection's trace |
| `HttpParser.SecondFinishBreaksOrder` | `libcocao/http/http-parser/http_parser.c:660-667` | a second one completes the same message again, which no well-formed trace allows |
| `HttpParser.LoopEnds` | `libcocao/http/http-parser/http_parser.c:2054-2076` | delivering the item that is open at the end of a buffer restores the byte-by-byte trace, and the five deliveries of the source come to just that one |
| `HttpFragments.TwoCalls` | `libcocao/http/http-parser/http_parser.c:638-2084` | if one call consumes a + b, two calls with a and b consume everything and end in the same registers with the same glued callbacks |
| `HttpFragments.OneCall` | `libcocao/http/http-parser/http_parser.c:638-2084` | the converse: two calls that consume everything do what one call does |
| `HttpRun.RunConcat` | `libcocao/http/http-parser/http_parser.c:707-2052` | the meaning of a + b is the meaning of b after that of a |
| `HttpExecute.Turn` | `libcocao/http/http-parser/http_parser.c:707-2052` | one turn of the outer loop, whatever the state, consumes at least one byte and keeps pace with the meaning, or fails at a byte in front of which none leaves |
| `HttpMarks.Perform` | `libcocao/http/http-parser/http_parser.c:79-141` | marks and callbacks of one byte: deferred delivery and immediate delivery agree once glued; the one mark changes as the five variables of the source do |
| `HttpMarks.NoOtherMark` | `libcocao/http/http-parser/http_parser.c:104-141` | a delivery meets only a mark of its own kind, and an item is opened only where no mark is left |
| `HttpMarks.OneIsEnough` | `libcocao/http/http-parser/http_parser.c:104-141` | with five mark variables every byte delivers and marks exactly what it does with one |
| `HttpFiveMarks.AtMostOne` | `libcocao/http/http-parser/http_parser.c:2064-2068` | after every byte of every call at most one of the five marks is set, namely that of the state's item or of the body: the assertion at the end of the loop cannot fail |
| `HttpFieldLoop.FieldRun` | `libcocao/http/http-parser/http_parser.c:1248-1382` | the inner loop over a header name, with its fast skip and its late counting, does what its bytes do one by one |
| `HttpValueLoop.ValueRun` | `libcocao/http/http-parser/http_parser.c:1469-1668` | the same for a header value, also where the fast skip passes over a byte behind the header limit |
| `HttpBodyLoop.BodyRun` | `libcocao/http/http-parser/http_parser.c:1910-2028` | body bytes taken in bulk are one delivery with the meaning of single bytes |
| `HttpBodyLoop.BodyEnd` | `libcocao/http/http-parser/http_parser.c:1873-1908` | the last bytes of a sized body are delivered together and the message ends behind them |
| `HttpInvariant.StepSound` | `libcocao/http/http-parser/http_parser.c:713-2052` | every byte keeps the joint invariant of state, header state, flags, length, index and byte count; no assert inside the loop fails (the one behind it: `HttpFiveMarks.AtMostOne`) |
| `HttpOrder.StepOrdered` | `libcocao/http/http-parser/http_parser.c:713-2052` | the callbacks of every byte are allowed by the reference automaton, which goes on agreeing with the state |
| `HttpOrder.RunGood` | `libcocao/http/http-parser/http_parser.c:638-2084` | in every state any input leads to, the registers fit together, no assert has failed, and the trace is a beginning of well-formed messages, each body counted against what its headers or its chunks announced, and nothing after a last message; which message is the last is said by `HttpMessages.RequestMessage` and `ResponseMessage` |
| `HttpErrors.StepBlames` | `libcocao/http/http-parser/http_parser.c:707-2052` | every error names the part of the message in which the refused byte stands; the limit is exceeded exactly where a counted byte finds the count at it; a closed connection is reported exactly for a byte behind a last message that is no line end |
| `HttpErrors.RunBlames` | `libcocao/http/http-parser/http_parser.c:707-2052` | for every input: an error is reported at one byte, in a part that the error names, and the bytes before it were read without one |
| `HttpVersions.VersionRun` | `libcocao/http/http-parser/http_parser.c:1089-1196` | behind a target: any blanks, `HTTP/` or, for SOURCE, `ICE/`, digit, dot, digit and the end of the line lead to the header block with these digits in the registers and no callback |
| `HttpVersions.VersionExact` | `libcocao/http/http-parser/http_parser.c:1089-1196` | a text up to its line feed is read there without an error exactly if it is such a line |
| `HttpRequestLines.RequestRun` | `libcocao/http/http-parser/http_parser.c:726-1196` | the name of any method, blanks, a target and a version or nothing, from wherever a request may begin, are taken with exactly these registers, and the target is delivered whole |
| `HttpRequestLines.RequestExact` | `libcocao/http/http-parser/http_parser.c:920-1196` | a text up to its line feed is read without an error, where only a request may begin, exactly if it is a request line |
| `HttpTargetTexts.TargetExactly` | `libcocao/http/http-parser/http_parser.c:1016-1087` | for every method, what may stand for a target: a path with query and fragment, a scheme with any run of host bytes without `@@` and a path, or, for CONNECT, the latter without a scheme |
| `HttpStatusLines.StatusRun` | `libcocao/http/http-parser/http_parser.c:726-918` | protocol, two digits, blanks, a code of any digits up to 999 and a reason or none are taken with exactly these registers, and the reason is delivered whole |
| `HttpStatusLines.StatusExact` | `libcocao/http/http-parser/http_parser.c:763-918` | a text up to its line feed is read without an error, where only a response may begin, exactly if it is a status line |
| `HttpBlocks.LineRun` | `libcocao/http/http-parser/http_parser.c:1198-1755` | a header line, with any blanks and continuations: it is accepted exactly if it is no length line or the first one with a number that fits; name and value are delivered, and the flags gain exactly what its text says |
| `HttpBlocks.BlockRun` | `libcocao/http/http-parser/http_parser.c:1198-1755` | the same for any number of header lines |
| `HttpBlockOrigins.BlockOrigin` | `libcocao/http/http-parser/http_parser.c:1198-1824` | the converse: any input that has left the header block begins with header lines and an empty line |
| `HttpMessages.HeadRun` | `libcocao/http/http-parser/http_parser.c:1757-1868` | header lines and an empty line: accepted exactly if their lengths are; what on_headers_complete is told, whether the message is complete then, what comes next, and whether the connection is handed over, all in terms of the text |
| `HttpMessages.RequestMessage` | `libcocao/http/http-parser/http_parser.c:638-2112` | a whole request, its line, its header lines and a body or none: all callbacks in order; on_message_complete comes with "go on" exactly if the version and the effective close or keep-alive items say so; the call returns at its last byte exactly if the text or the answer asks for another protocol |
| `HttpMessages.ResponseMessage` | `libcocao/http/http-parser/http_parser.c:638-2127` | the same for a whole response, where a body that ends with the connection is never followed by another message |
| `HttpMessages.OpenMessage` | `libcocao/http/http-parser/http_parser.c:1757-1915` | a message whose body ends with the connection: its header block and every byte behind it are delivered, and no byte ends it |
| `HttpMessages.SizedEnd` | `libcocao/http/http-parser/http_parser.c:1873-1908` | a body of known size completes the message with its last byte, and the decision is that of the text |
| `HttpMessages.ChunkedEnd` | `libcocao/http/http-parser/http_parser.c:1925-2052` | a chunked body with a trailer: everything is delivered, and the header lines of the trailer take part in the decision |
| `HttpMessages.AfterMessage` | `libcocao/http/http-parser/http_parser.c:716-778` | where another message may follow it may begin; where none may, exactly line ends are taken and any other byte is an error |
| `HttpMessageOrigins.ReportedRequest` | `libcocao/http/http-parser/http_parser.c:638-1868` | for every input: once a head has been reported, the input begins with line ends, a request line, header lines and an empty line, and the head is what they say |
| `HttpMessageOrigins.ReportedResponse` | `libcocao/http/http-parser/http_parser.c:638-1868` | the same for responses |
| `HttpExchanges.EveryRequest` | `libcocao/http/http-parser/http_parser.c:638-1868` | for every method and every URL that the splitter accepts, `m u HTTP/1.1` and an empty line are read without an error and give begin, the URL, the end of the headers and the end of a message that another may follow |
| `HttpExchanges.RequestWithout` | `libcocao/http/http-parser/http_parser.c:638-1868` | the same with any header lines that announce no body: version 1.1 goes on exactly without an effective close item, version 1.0 exactly with a keep-alive item; it tunnels exactly if it is CONNECT or names and upgrades to a protocol |
| `HttpExchanges.Pipelined` | `libcocao/http/http-parser/http_parser.c:456-464` | two such requests on one connection give the callbacks of the one and then of the other |
| `HttpExchanges.LastRequest` | `libcocao/http/http-parser/http_parser.c:716-725` | behind one that is the last every byte that is no line end is refused as closed |
| `HttpExchanges.OnlyItemSays` | `libcocao/http/http-parser/http_parser.c:1576-1655` | a Connection line whose value is one item says a keyword exactly if that item is the keyword in any letter case, with blanks behind it |
| `HttpExchanges.OtherSays` | `libcocao/http/http-parser/http_parser.c:1248-1366` | a header line with any other name has no part in the decisions on framing, keep-alive and upgrade |
| `HttpMarks.OnlyAtTheEnd` | `libcocao/http/http-parser/http_parser.c:1757-1922` | a call returns early only with the end of a message |
| `HttpBodies.MessageBody` | `libcocao/http/http-parser/http_parser.c:1826-2052` | in every accepted trace the bytes given to on_body between on_headers_complete and on_message_complete are as many as the reported length, or as all the reported chunk sizes together, or none |
| `HttpHeads.DeclaredLength` | `libcocao/http/http-parser/http_parser.c:1198-1824` | wherever a header line may begin: with a Content-Length line there, on_headers_complete reports exactly the number shown, whatever else the header block holds; a second such line, a number that does not fit, or chunked coding beside it is refused before |
| `HttpOrigins.ReportedLength` | `libcocao/http/http-parser/http_parser.c:1198-1824` | the converse: whenever on_headers_complete is told a length, a Content-Length line of the same header block shows exactly that number |
| `HttpOrigins.LengthOrigin` | `libcocao/http/http-parser/http_parser.c:1198-1668` | whenever a length has been declared, the input so far contains such a line, and the register holds its number |
| `HttpHeads.ContentLengthBody` | `libcocao/http/http-parser/http_parser.c:1198-1908` | for every connection input with such a line: the number of bytes given to on_body when the message completes is exactly the number in the line |
| `HttpHeads.SizedBody` | `libcocao/http/http-parser/http_parser.c:1873-1908` | for every connection input: these bytes are exactly the first bytes behind the header block |
| `HttpChunks.ChunkAnnounced` | `libcocao/http/http-parser/http_parser.c:1925-2005` | a chunk line is read without an error exactly if it has hexadecimal digits of a number that fits, then nothing, or a blank or semicolon and anything; the number is what is reported and counted against |
| `HttpChunks.ChunksRun` | `libcocao/http/http-parser/http_parser.c:1925-2045` | a list of such chunks is delivered as header, data, end for each, and the parser is ready for the next |
| `HttpChunks.ChunkedBody` | `libcocao/http/http-parser/http_parser.c:1925-2045` | for every connection input that enters a chunked body and completes the message: the input was a list of good chunks and a last line, and on_body was given exactly their data in order |
| `HttpGrammar.MonitorFeedAll` | `libcocao/http/http-parser/http_parser.c:104-133` | glueing pieces does not change the verdict on a trace, so neither does the cutting of the input |
| `HttpGrammar.AcceptedPrefix` | `libcocao/http/http-parser/http_parser.c:79-133` | whatever is accepted was accepted all the way |
| `HttpLength.ContentLengthExact` | `libcocao/http/http-parser/http_parser.c:1529-1557` | for all digit strings cut in any way the register is the exact decimal number, or the message is refused because the number does not fit |
| `HttpLength.ChunkSizeExact` | `libcocao/http/http-parser/http_parser.c:1925-1976` | the same for hexadecimal chunk sizes |
| `HttpLength.AcceptedHexDigits` | `libcocao/http/http-parser/http_parser.c:224-241` | which characters are taken for hexadecimal digits |
| `HttpLength.RfcDeviation` | `libcocao/http/http-parser/http_parser.c:2089-2108` | the body length differs from section 4.4 of RFC 2616 exactly on 1xx, 204 and 304 responses that announce a body |
| `HttpLength.StatusExact` | `libcocao/http/http-parser/http_parser.c:843-886` | a status code is the exact number of its digits, or is refused above 999 |
| `HttpMethods.MethodExact` | `libcocao/http/http-parser/http_parser.c:920-1014` | the text before the first blank of a request is accepted exactly if it is the name of a method, and is taken for that method |
| `HttpMethods.VerbBegins` | `libcocao/http/http-parser/http_parser.c:963-1014` | a change of candidate never forgets what has been read |
| `HttpMethods.NameAccepted` | `libcocao/http/http-parser/http_parser.c:963-1014` | the candidates on the way lead to every method |
| `HttpValues.TransferChunked` | `libcocao/http/http-parser/http_parser.c:1399-1712` | a Transfer-Encoding value on one line makes a message chunked exactly if it is that word in any letter case with blanks behind it |
| `HttpValues.TransferFolded` | `libcocao/http/http-parser/http_parser.c:1681-1712` | a value that is continued on a further line never does |
| `HttpValues.ConnectionFlags` | `libcocao/http/http-parser/http_parser.c:1399-1712` | the flags of a Connection value on one line are those of its comma-separated items, for every value cut in any way |
| `HttpValues.ConnectionExact` | `libcocao/http/http-parser/http_parser.c:1399-1712` | behind such a value each flag is set exactly if it was before or its keyword is an item that the machine is open to |
| `HttpValues.ConnectionFolded` | `libcocao/http/http-parser/http_parser.c:1681-1712` | the flags of a value that is continued on a further line: behind a comma those of the whole list, anywhere else those of the first line without its last item |
| `HttpValues.FlagsExact` | `libcocao/http/http-parser/http_parser.c:1576-1655` | the flags set are exactly those whose keyword is met openly, and no other flag is touched |
| `HttpValues.MissedExactly` | `libcocao/http/http-parser/http_parser.c:1576-1655` | a named flag is missed exactly if every item naming it is met lost or after the search is over |
| `HttpValues.OverExactly` | `libcocao/http/http-parser/http_parser.c:1594-1636` | the search is over exactly behind an item that ends it; the machine is lost exactly behind an item that hides its comma |
| `HttpValues.NothingInvented` | `libcocao/http/http-parser/http_parser.c:1576-1655` | no flag is set that the value does not name |
| `HttpValues.NothingMissed` | `libcocao/http/http-parser/http_parser.c:1576-1655` | every named flag is set if no item but the last hides its comma or ends the search |
| `HttpValues.CloseIsMissed` | `libcocao/http/http-parser/http_parser.c:1602-1610` | an input: in `k,close` the close is not seen |
| `HttpNames.NameRecognised` | `libcocao/http/http-parser/http_parser.c:1248-1366` | the header-name machine recognises the special names in any letter case, and nothing else |
| `HttpNames.TokenExact` | `libcocao/http/http-parser/http_parser.c:189-222` | the bytes of a header name are the token characters of section 2.2 of RFC 2616, letters counted in lower case |
| `HttpNames.NameAndColon` | `libcocao/http/http-parser/http_parser.c:1198-1382` | wherever a header line may begin, a name and its colon leave the parser knowing which header it is, with the header before in effect |
| `HttpNames.ContentLengthHeader` | `libcocao/http/http-parser/http_parser.c:1198-1557` | a Content-Length line up to its last digit, in any letter case, with any blanks, leaves the number it shows in the register or is refused |
| `HttpNames.SecondLengthRefused` | `libcocao/http/http-parser/http_parser.c:1423-1439` | a second such line is refused |
| `HttpWitnesses.NoContentWithBody` | `libcocao/http/http-parser/http_parser.c:1826-1868` | an input: a 204 response with a length of five, for which the parser waits for five bytes of a body |
| `HttpWitnesses.TwoEnds` | `libcocao/http/http-parser/http_parser.c:660-667` | an input: a response whose end, signalled twice, is reported twice |
| `HttpUrl.SplitUrl` | `libcocao/http/http-parser/http_parser.c:2346-2418` | the ranges recorded are exactly the bytes that the automaton assigns to each field, with 16 bits kept of each number, for URLs of any length; `HttpUrlText.Composed` says which these are for a URL written from parts |
| `HttpUrl.ParseHost` | `libcocao/http/http-parser/http_parser.c:2259-2338` | the host, port and user ranges are those of the host automaton, and it fails exactly where that does not end well |
| `HttpUrl.ParsePort` | `libcocao/http/http-parser/http_parser.c:2438-2463` | the port of digits is the exact decimal value and is refused exactly above 65535 |
| `HttpUrl.ParseUrl` | `libcocao/http/http-parser/http_parser.c:2346-2466` | where 16 bits reach: success means non-empty ranges in bounds, disjoint and in order, with only delimiters between them, each spelled with its own characters, and they are the only ranges that the automata assign; both directions of acceptance are characterised without the loops; of any longer URL, what is kept of the fields |
| `HttpUrl.ShortUrlFits` | `libcocao/http/http-parser/http_parser.c:2401-2408` | 16 bits reach in every URL below 64 KiB |
| `HttpUrl.LongPath` | `libcocao/http/http-parser/http_parser.c:2401-2408` | of a URL that is one path the length is kept right exactly below 64 KiB |
| `HttpUrl.RefinedDecomposes` | `libcocao/http/http-parser/http_parser.c:2259-2338` | refining the host range keeps the decomposition of the URL |
| `HttpUrl.RefinedSpelled` | `libcocao/http/http-parser/http_parser.c:490-636` | every recorded field consists of the characters allowed in it |
| `HttpTargets.TargetAccepted` | `libcocao/http/http-parser/http_parser.c:1016-1087` | a URL that the splitter accepts is accepted whole as a request target, and delivered whole |
| `HttpUrlText.Composed` | `libcocao/http/http-parser/http_parser.c:2346-2466` | for any scheme, user information, host name or address, port, path, query and fragment with allowed bytes: the URL written from them is split into exactly these ranges and this port; more hashes at the front of a fragment are skipped, and empty parts are not reported |
| `HttpUrlText.ComposedConnect` | `libcocao/http/http-parser/http_parser.c:2410-2466` | the same for the target of CONNECT, which is accepted exactly with a port and without user information |
| `HttpUrlText.ParseParts` | `libcocao/http/http-parser/http_parser.c:2346-2466` | the splitter's loops, given a URL written from parts, return these |
| `HttpUrlOrigins.UrlOrigin` | `libcocao/http/http-parser/http_parser.c:2346-2466` | the converse: every URL that is accepted is written from such parts |
| `HttpUrlOrigins.AcceptedExactly` | `libcocao/http/http-parser/http_parser.c:2346-2466` | a URL is accepted exactly if it is written from parts |
| `FlatBytes.FlattenPatch` | `libcocao/bytearray.cc:488-506` | overwriting inside one node overwrites the flat sequence at the matching place and nowhere else |
| `FlatRuns.Remembered` | `libcocao/bytearray.cc:479-601` | over every run, each position holds the byte last stored there, and what no write covered is as it was |
| `FlatRuns.ReadsBack` | `libcocao/bytearray.cc:517-544` | a successful read returns, byte by byte, what was last stored |
| `FlatRuns.SizeIsFarthest` | `libcocao/bytearray.cc:508` | the size is the farthest position the cursor has reached |
| `ByteBuffer.Rounding` | `libcocao/bytearray.cc:824-826` | rounding up gives the least sufficient room; rounding down is sufficient exactly when nothing remains |
| `ByteBuffer.ByteArray.constructor` | `libcocao/bytearray.cc:31-39` | an empty array of one node |
| `ByteBuffer.ByteArray.AddCapacity` | `libcocao/bytearray.cc:819-839` | the fewest nodes that give the room, contents and cursor kept; otherwise exactly when the written text falls short |
| `ByteBuffer.ByteArray.Write` | `libcocao/bytearray.cc:479-510` | exactly the bytes from the cursor on are overwritten, across any node boundaries, and the size rises to the cursor; it fails exactly where the room does |
| `ByteBuffer.ByteArray.Read` | `libcocao/bytearray.cc:517-544` | exactly the bytes behind the cursor, which moves over them; too long a request changes nothing |
| `ByteBuffer.ByteArray.ReadAt` | `libcocao/bytearray.cc:552-580` | the slice that the code reads, and exactly when it refuses and when it leaves the list |
| `ByteBuffer.ReadAtRight` | `libcocao/bytearray.cc:552-560` | exactly when the positional read as written does what is intended: refuse, leave the list, read nothing, or read from that position |
| `ByteBuffer.ReadStartRight` | `libcocao/bytearray.cc:557-560` | the written read starts at the asked position exactly in the current node |
| `ByteBuffer.ByteArray.SetPosition` | `libcocao/bytearray.cc:586-601` | the cursor moves anywhere within the capacity, to the right node, and the size follows |
| `ByteBuffer.ByteArray.Clear` | `libcocao/bytearray.cc:461-472` | back to one node, with its memory unchanged |
| `ByteBuffer.ByteArray.ToString` | `libcocao/bytearray.cc:677-685` | the readable bytes, as written and as intended |
| `ByteBuffer.ByteArray.GetReadBuffers` | `libcocao/bytearray.cc:710-738` | the segments cover the flat slice of length min(len, readable) |
| `ByteBuffer.ByteArray.GatheredSlice` | `libcocao/bytearray.cc:722-737` | what is read through covering segments is exactly the flat slice |
| `ByteBuffer.ByteArray.GetReadBuffersAt` | `libcocao/bytearray.cc:747-779` | the segments from a position, and exactly when the walk leaves the list |
| `ByteBuffer.ViewLengthRight` | `libcocao/bytearray.cc:748` | exactly when the written length of that view is the intended one, also from behind the size |
| `ByteBuffer.PositionalWitnesses` | `libcocao/bytearray.cc:557-560` | inputs: a read that starts in the wrong node, one behind the size that is not refused, and views that are too short and too long |
| `ByteBuffer.ByteArray.GetWriteBuffers` | `libcocao/bytearray.cc:787-813` | room is made and covered by segments, contents and cursor kept |
| `ByteBuffer.ByteArray.Receive` | `libcocao/streams/socket_stream.cc:48-57` | filling the first bytes of the segments and moving the cursor is a write of these bytes |
| `ByteBuffer.ByteArray.PerformAll` | `libcocao/bytearray.cc:479-601` | every run on the node list is a run on one flat sequence |
| `ByteBuffer.FlooredGrowthFails` | `libcocao/bytearray.cc:826` | a concrete first write for which the written growth is too small |
| `Varint.RoundTrip` | `libcocao/bytearray.cc:161-170` | every value of the width survives, and exactly the bytes written are consumed, whatever follows |
| `Varint.AtMostFiveOrTen` | `libcocao/bytearray.cc:161-193` | five bytes are enough for 32 bits and ten for 64 |
| `Varint.Shortest` | `libcocao/bytearray.cc:348-386` | no byte sequence that the reader accepts for a value is shorter than the writer's |
| `Varint.VarintByte` | `libcocao/bytearray.cc:161-193` | every byte of the format: seven bits of the number, the lowest first, and a mark on all but the last |
| `Varint.ZigzagBijection` | `libcocao/bytearray.cc:127-147` | zigzag, computed in wrapping registers, is a bijection, the minimum included |
| `Varint.SignedRoundTrip` | `libcocao/bytearray.cc:153-178` | signed numbers survive zigzag and varint |
| `ByteCodec.Pack32` | `libcocao/bytearray.cc:161-168` | the writing loop produces the format within its five bytes |
| `ByteCodec.Pack64` | `libcocao/bytearray.cc:184-191` | the 64-bit loop does so exactly for values below 128 as written, and for all as intended |
| `ByteCodec.ReadVarint` | `libcocao/bytearray.cc:348-386` | the reading loops, which or groups together, compute the decoder of the format on the bytes behind the cursor |
| `ByteCodec.StringRoundTrip` | `libcocao/bytearray.cc:246-249` | a string is read back exactly with the repaired length, never with the written one |
| `ByteCodec.BigEndianByte` | `libcocao/bytearray.cc:247` | every byte of the length header as written: eight bits of the number, the highest first |
| `ByteCodec.WriteUint32` | `libcocao/bytearray.cc:161-170` | the encoding is written at the cursor, exactly if there is room for it |
| `ByteCodec.WriteUint64` | `libcocao/bytearray.cc:184-193` | the same, and as written only for values below 128 |
| `ByteCodec.WriteStringVint` | `libcocao/bytearray.cc:246-249` | length and bytes are written as one, exactly if both find room, the second where the first has left the cursor |
| `ByteCodec.ReadStringVint` | `libcocao/bytearray.cc:450-456` | the string at the cursor, or why there is none |
| `ByteCodec.Echo` | `libcocao/bytearray.cc:246-249` | write, seek back and read: the same string and the same cursor |
| `IoTable.HandOk` | `libcocao/iomanager.cc:30-40` | handing a live registration over keeps the ledger: what is scheduled is what was registered |
| `IoTable.DropOk` | `libcocao/iomanager.cc:250-253` | dropping one keeps it |
| `IoSteps.AddEventKeeps` | `libcocao/iomanager.cc:196-223` | when it succeeds, is refused or fails its assert; consistency; one new registration |
| `IoSteps.RemoveEventKeeps` | `libcocao/iomanager.cc:226-287` | delEvent and cancelEvent succeed exactly on registered events, and drop or hand over exactly that registration |
| `IoSteps.CancelAllKeeps` | `libcocao/iomanager.cc:293-326` | every event of the descriptor is handed over and none remains |
| `IoSteps.DispatchKeeps` | `libcocao/iomanager.cc:143-174` | exactly the fired events that are still registered are handed over, with what their slots hold, READ before WRITE; the exact condition for the crash as written |
| `IoRuns.ResizeKeeps` | `libcocao/iomanager.cc:85-94` | resizing keeps counter and consistency exactly when no row that is cut off has an event |
| `IoRuns.ApplyKeeps` | `libcocao/iomanager.cc:135-326` | every step keeps the table consistent; the one way to die is registering an event twice |
| `IoRuns.RunConsistent` | `libcocao/iomanager.cc:135-326` | over every interleaving the counter is the number of event bits, bits and slots agree, and the kernel watches exactly the bits |
| `IoRuns.RunLater` | `libcocao/iomanager.cc:30-40` | a registration that was handed over or dropped stays so for the rest of the run |
| `IoRuns.ExactlyOnce` | `libcocao/iomanager.cc:24-40` | each registration is live, handed over once, or dropped once: exactly one of these |
| `IoRuns.NothingPending` | `libcocao/iomanager.cc:289-291` | the counter is zero exactly when nothing is registered and nothing is watched |
| `IoRuns.AsWrittenInert` | `libcocao/iomanager.cc:197` | as written no registration of a descriptor that the kernel does not watch from the start ever succeeds, in any run |
| `IoRuns.WatchedIsDeleted` | `libcocao/iomanager.cc:45-55` | registering the watched end of the pipe succeeds as written, and leaves it unwatched |
| `IoRuns.DispatchCrash` | `libcocao/iomanager.cc:143-174` | an input: READ and WRITE are registered and reported, and WRITE is cancelled before the report is dispatched; the written dispatch dies, the intended one hands over READ |
| `IoRuns.StaleResize` | `libcocao/iomanager.cc:190-193` | an input: a resize after a stale check cuts off a registered row |
| `IoManager.FdContext.TriggerEvent` | `libcocao/iomanager.cc:30-40` | the bit is cleared, the slot emptied, and its task and scheduler are what is passed on |
| `IoManager.IOManager.ContextResize` | `libcocao/iomanager.cc:85-94` | the vector grows by fresh contexts or forgets the last ones |
| `IoManager.IOManager.AddEvent` | `libcocao/iomanager.cc:183-224` | performs the resizing and the step of the event table, aborting exactly where the assert fails |
| `IoManager.IOManager.DelEvent` | `libcocao/iomanager.cc:226-256` | performs the dropping step |
| `IoManager.IOManager.CancelEvent` | `libcocao/iomanager.cc:258-287` | performs the triggering step |
| `IoManager.IOManager.CancelAll` | `libcocao/iomanager.cc:293-326` | performs the step that triggers both |
| `IoManager.IOManager.DispatchAll` | `libcocao/iomanager.cc:135-175` | the dispatch loop is a run of single steps |
| `IoManager.IOManager.Stopping` | `libcocao/iomanager.cc:289-291` | no I/O stop while a registration is live |
| `TimerSet.ProbeIsExact` | `libcocao/timer.cc:103-106` | with a probe for now the expired prefix is exact whatever the addresses are |
| `TimerSet.WrittenExactIff` | `libcocao/timer.cc:102-105` | when the written probe and test select exactly the expired timers |
| `TimerSet.OverdueIsMissed` | `libcocao/timer.cc:102-105` | an input: of one timer that was due at 5 nothing is selected at 10 |
| `Timers.Timer.Cancel` | `libcocao/timer.cc:30-39` | a live timer is always found and leaves the set, and no other does |
| `Timers.Timer.Refresh` | `libcocao/timer.cc:41-50` | the deadline counts anew; under a clock that does not run back no wake-up is missed |
| `Timers.Timer.Reset` | `libcocao/timer.cc:52-66` | the new period from now or from the old start, with a wake-up when the timer comes to the front |
| `Timers.TimerManager.Find` | `libcocao/timer.cc:44-45` | find locates exactly the members, whatever addresses timers have that are no longer in the set |
| `Timers.TimerManager.AddTimer` | `libcocao/timer.cc:75-80` | one more timer, at an address that no timer in the set has; a wake-up exactly for an insertion at the front while none is under way |
| `Timers.TimerManager.AddLocked` | `libcocao/timer.cc:121-127` | at most one wake-up between two calls of getNextTimer |
| `Timers.TimerManager.GetNextTimer` | `libcocao/timer.cc:82-91` | how long the waiter may sleep; from here on no deadline comes earlier without a wake-up |
| `Timers.TimerManager.ListExpired` | `libcocao/timer.cc:93-119` | in deadline order the callbacks of exactly the timers that are due, all on rollover for both texts; recurring ones are armed again, the others retired, later ones untouched; the time is remembered exactly if there are timers; the exact condition as written |
| `Timers.TimerManager.ListTwice` | `libcocao/timer.cc:93-134` | two calls in a row: the second sees a rollover exactly if its time lies before that of the first, and before that less an hour in 64 bits; then it returns all that is left |
| `Timers.TimerManager.DetectClockRollover` | `libcocao/timer.cc:129-134` | when a rollover is seen, with the unsigned subtraction |
| `SchedulerSteps.RunBalanced` | `libcocao/schedule.cc:84-138` | over every interleaving what was scheduled is what is queued, in flight or finished; the active count is the number of busy workers; a task runs only on the thread it is pinned to |
| `SchedulerSteps.TakesEarliest` | `libcocao/schedule.cc:89-110` | the scan takes the first task for the worker's thread or for any that is no running fiber, nothing exactly if there is none, and the others keep their order |
| `SchedulerSteps.RunInOrder` | `libcocao/schedule.cc:87-110` | over every interleaving the callbacks for one thread, and those for any, are taken in the order in which they were scheduled |
| `SchedulerSteps.IdleWorkerTakes` | `libcocao/schedule.cc:89-110` | an idle worker that scans a queue with a callback for it or for any thread becomes busy |
| `SchedulerSteps.RoundsFinish` | `libcocao/schedule.cc:84-138` | one worker alone finishes any front of the queue that is not for other threads, in as many rounds, and changes nothing else |
| `SchedulerSteps.RunExclusive` | `libcocao/schedule.cc:99-102` | over every interleaving no fiber is resumed by two workers at once |
| `SchedulerSteps.StopIsSafe` | `libcocao/schedule.cc:57-60` | when stopping() holds, all that was scheduled has been finished |
| `SchedulerSteps.StopIsFinal` | `libcocao/schedule.cc:57-60` | without further calls of schedule it goes on holding over every run |
| `SchedulerSteps.WorkShrinks` | `libcocao/schedule.cc:84-138` | every effective step of a worker brings the end nearer |
| `Schedulers.Scheduler.ScheduleNoLock` | `libcocao/schedule.h:95-102` | the task is appended unless it is empty; a wake-up is asked for when the list was empty |
| `Schedulers.Scheduler.ScheduleAll` | `libcocao/schedule.h:45-56` | what the range holds is appended in order under one lock, empty tasks dropped; a wake-up exactly if the list was empty and the range is not |
| `Schedulers.Scheduler.Take` | `libcocao/schedule.cc:87-113` | the loop takes the first task for its thread or for any that is no running fiber, exactly if there is one, counts it, and passes a wake-up on when others may be wanted |
| `Schedulers.Scheduler.Finish` | `libcocao/schedule.cc:115-128` | the count goes down for the worker that held a task |
| `Schedulers.Scheduler.Stopping` | `libcocao/schedule.cc:57-60` | yes only when nothing is queued or in flight |
| `Schedulers.Scheduler.RequestStop` | `libcocao/schedule.cc:142-145` | only the stop flag changes |

## Left out

- HttpParser.StreamingParser.Execute: does not model callbacks that fail or pause; the answer of on_headers_complete is a function of the parser record.
- HttpParser.StreamingParser.Execute: a buffer with a line as long as the header limit must be shorter than 2^32 less that limit (`HttpFieldLoop.Countable`): in a longer one the 32-bit byte counter of an inner loop can wrap before it is compared, and an oversized header would pass. The same holds for Loop, Turn, FieldRun and ValueRun.
- HttpUrl.ParseUrl: of a URL whose host does not lie where 16 bits reach, it does not say what the host automaton makes of the bytes it is given instead.
- ByteBuffer.ByteArray.AddCapacity: does not model sizes beyond 2^53, where the source's floating-point division is inexact.
- ByteBuffer.ByteArray.Clear: the nodes leave the list; their deletion is not modelled.
- HttpExchanges.EveryRequest: on_headers_complete is taken to answer 0, as in RequestWithout, Pipelined and LastRequest; other answers are in `HttpMessages.RequestMessage`.
- HttpHeads.ContentLengthBody: does not model the largest 32-bit number as header limit, with which the byte counter wraps before it is compared; the same holds for DeclaredLength, ChunkAnnounced and ChunkedBody, for RequestMessage and ResponseMessage, and for StepBlames.
- Varint.EncodeZigzag: models the source's two signed overflows, which are undefined there, as wrapping.
- Timers.TimerManager.AddTimer: does not model timers with a null callback, which enter the set without being live.
- IoManager.IOManager.AddEvent: does not model the assertion on the state of the current fiber, nor negative descriptors.
- Pausing and resuming the parser, its non-strict build, and its method, status and error name tables.
- Memory reclamation and allocation failure.
- Byte orders other than the default, fixed-width numbers, floats, and strings with fixed-width lengths: each is one call of `Write` or `Read` on a number's bytes, reversed where the order asks for it.
- File reading and writing of the byte array, and its hex dump.
- The reader-writer lock, whose unlock takes the write lock (`libcocao/mutex.h:94`, `libcocao/mutex.h:122`): regions under a lock are single steps.
- Reads of shared fields outside locks (`m_ms` in reset, `m_tickled` in getNextTimer), and a timer set that becomes empty between the two locks of listExpiredCb.
- Fiber switching, thread creation and joining, hooks, sockets, the pipe that wakes epoll, and logging. The interest set of the event table is without the pipe's end, which has no registrations.
