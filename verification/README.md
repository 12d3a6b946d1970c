# Verification of the Nabto embedded device library

A Dafny model of the parts of the device library that carry state over long
runs or work on unbounded data, with proofs of what they promise.

* **JSON** (`Bytes`, `JsonModel`, `JsonGrammar`, `JsonUnicode`, `JsonNumber`,
  `JsonText`, `JsonAccepts`, `JsonShape`, `JsonRoundTrip`, `JsonDocument`,
  `JsonParser`, `JsonPrinter`, `JsonConfig`): the cJSON parser and printer. The grammar and the
  rendering are functions; the two-pass string code, the growing print buffer and
  the recursive parser are classes proved against them. `JsonNumber` and `JsonText`
  write down the JSON texts of RFC 8259 and what they mean, without reference to
  the code; `JsonAccepts` proves that every one of them parses to what it means,
  `JsonRoundTrip` that the printer writes one that means the tree, and `JsonShape`
  what else the parser takes.
* **Attaching** (`AttachProtocol`, `AttachSafety`, `AttachHistory`,
  `AttachTheorems`, `AttachDiagram`, `Attacher`): the attach state machine with its token uploads.
  `AttachProtocol` gives one step per event and says which events the platform may
  deliver; `Attacher` holds the handlers and proves that they make these steps; the
  theorems speak of every run.
* **Helpers of attaching** (`KeepAlive`, `DnsMerge`).
* **Asynchronous API** (`Listeners`, `Futures`, `Authorization`): small concurrent
  protocols as atomic steps in any order.
* **Connections and streams** (`ClientConnection`, `ConnectionTable`, `StreamRuns`,
  `StreamIO`, `StreamManager`).
* **Wire format and key exchange** (`Packet`, `Spake2`).

What the code calls but does not contain is a contract in the model:

* A DTLS close on a context that is not connected does nothing; otherwise the
  session ends later with CLOSED. Every close in the attacher is the last thing its
  handler does, so it makes no difference that the DTLS module may deliver CLOSED
  at once.
* Every CoAP request that was sent is answered once. It gets a real answer only
  while the session it was sent on is open; it can fail at any time.
* The event queue runs a posted close event before a DNS answer that is posted
  later.
* Number formatting is `NumberLib`: the form of a finite number that print_number
  settles on is a number of section 6 of RFC 8259, and `strtod` reads it back.
* Memory that may run out is a flag of the call or a nondeterministic choice;
  `reliable` says that allocations never fail.
* The stream protocol below `nc_stream.c` is a byte queue that hands over and takes
  any number of bytes at a time; which, and with what status, is part of a run.
* DTLS delivers the records of a datagram before the next datagram is handled.
* SPAKE2 works over any commutative group whose order kills every element, with an
  injective encoding of its elements where the transcript needs one.

Runs are sequences of events or uses. For each such component a pure function gives
the state after any run, a class holds the code, and a `Replay` method
shows that the code is in that state after the run; the theorems are about the
function.

Some promises turned out not to hold as they stand. For each there is an input that
shows it, and the exact condition under which the promise holds:

* Tokens that cannot be stored are not synchronized (`SynchronizingIff`).
* The keep alive limit and the packet counts overflow (`OnTimeIff`).
* A future that merely polls as resolved must not be reused while its callback is
  owed (`ReuseIff`), although the header allows it.
* An authorization request is not freed when its listener stops with the request in
  its queue (`SettledIsFreed`).
* Connection references repeat after 2^64 draws (`DistinctIff`).
* The lookup of stream zero can find an ended stream (`FindIff`, `MisledIff`).
* The flags of a stream packet may be read behind its end (`FlagsIff`).

Two contracts are left to the callers: only errors are reported to a listener, which
all callers in the library keep to (`ReportEndsIff` says what happens otherwise), and
a stream is not used after it was destroyed.

The header of cJSON_PrintPreallocated asks for five spare bytes where two are needed.

## Model

| member | source | states |
|---|---|---|
| JsonDocument.PrintThenParse | 3rdparty/cjson/cjson/cJSON.c:1222-1727 | Parsing the printed text of any tree, formatted or not, gives the tree back with non-finite numbers turned into null if it is nested at most 1000 deep, and nothing otherwise |
| JsonDocument.RoundTripIff | 3rdparty/cjson/cjson/cJSON.c:1222-1727 | The round trip is the identity if and only if the tree is nested at most 1000 deep and all its numbers are finite |
| JsonDocument.JsonTextAccepted | 3rdparty/cjson/cjson/cJSON.c:1010-1087 | Every JSON text of RFC 8259, with any blanks, any spelling of strings and numbers and a byte order mark or not, parses to what it means and ends right behind it, if it is nested at most 1000 deep and its numbers have at most 63 bytes; any other is not read to its end |
| JsonShape.AcceptedIsLoose | 3rdparty/cjson/cjson/cJSON.c:1010-1087 | Whatever text the parser accepts starts, behind a byte order mark or not and blanks, with brackets, commas, colons and tokens put together as in JSON, looser than RFC 8259 only in blanks, strings and numbers; it is read as what that means, and when trailing text is refused only blanks follow |
| JsonShape.StringShape | 3rdparty/cjson/cjson/cJSON.c:708-834 | An accepted string ends at its first unescaped quote; without escapes it is read as it stands, and one of section 7 of RFC 8259 as what it means |
| JsonShape.NumberShape | 3rdparty/cjson/cjson/cJSON.c:276-350 | An accepted number is a decimal literal of at most 63 bytes and is read as that |
| JsonDocument.FormattingIsIrrelevant | 3rdparty/cjson/cjson/cJSON.c:1445-1504 | Formatted and unformatted text parse to the same tree |
| JsonDocument.ReloadIsStable | 3rdparty/cjson/cjson/cJSON.c:1010-1087 | Whatever any input text parses to is NUL-free, nested at most 1000 deep, and survives printing and parsing again exactly when its numbers are finite |
| JsonDocument.RenderNulFree | 3rdparty/cjson/cjson/cJSON.c:837-956 | The printed text of a tree with NUL-free strings has no NUL in it, which update_offset relies on |
| JsonDocument.ParsedShape | 3rdparty/cjson/cjson/cJSON.c:1222-1274 | A parsed value has NUL-free strings and its nesting stays within the limit left at its depth |
| JsonRoundTrip.ValueRoundTrip | 3rdparty/cjson/cjson/cJSON.c:1222-1274 | At any offset and depth inside a larger text, parse_value reads back exactly what print_value wrote and stops right behind it, unless the depth limit is hit |
| JsonRoundTrip.PrintedIsText | 3rdparty/cjson/cjson/cJSON.c:1277-1348 | What print_value writes, formatted or not, is a JSON text of RFC 8259 |
| JsonRoundTrip.PrintedMeans | 3rdparty/cjson/cjson/cJSON.c:1277-1348 | The printed text means the tree with its non-finite numbers turned into null |
| JsonRoundTrip.UnformattedIsCompact | 3rdparty/cjson/cjson/cJSON.c:1445-1504 | Without formatting the printed text has no blanks |
| JsonAccepts.TextAccepted | 3rdparty/cjson/cjson/cJSON.c:1222-1274 | At any offset and depth inside a larger text, parse_value reads any value of RFC 8259 as what it means and stops right behind it, exactly when it fits the limits |
| JsonAccepts.ElementsAccepted | 3rdparty/cjson/cjson/cJSON.c:1351-1442 | The element loop reads the elements of any array in order, with any blanks around them |
| JsonAccepts.PairsAccepted | 3rdparty/cjson/cjson/cJSON.c:1507-1613 | The member loop reads the members of any object in order, with any blanks around them |
| JsonAccepts.StringAccepted | 3rdparty/cjson/cjson/cJSON.c:708-834 | parse_string reads any string of section 7 of RFC 8259, however its characters are spelled, as what it means |
| JsonAccepts.EscapedCharacterDecodes | 3rdparty/cjson/cjson/cJSON.c:587-705 | Every spelling of the escape of any scalar value, in digits of either case, a surrogate pair above U+FFFF, decodes to its UTF-8 |
| JsonAccepts.ShortEscapeDecodes | 3rdparty/cjson/cjson/cJSON.c:778-800 | The eight short escapes of section 7 of RFC 8259 decode to their characters |
| JsonAccepts.OtherEscapeFails | 3rdparty/cjson/cjson/cJSON.c:800-816 | Every other escape is refused |
| JsonAccepts.NumberAccepted | 3rdparty/cjson/cjson/cJSON.c:276-350 | parse_number reads any number of section 6 of RFC 8259 of at most 63 bytes whole |
| JsonParser.AllocationSuffices | 3rdparty/cjson/cjson/cJSON.c:724-760 | For every input the bytes counted by the first pass of parse_string are enough for what its decode pass writes, also where the two passes see different escape boundaries |
| JsonParser.DecodedFits | 3rdparty/cjson/cjson/cJSON.c:764-822 | From any position the decoded bytes fit the room that is left by the first pass |
| JsonParser.ParseHex4 | 3rdparty/cjson/cjson/cJSON.c:550-583 | Four hex digits of either case give the unit they spell, anything else gives zero; JsonUnicode.SpelledReads says which digits spell what |
| JsonParser.ReadUtf16Literal | 3rdparty/cjson/cjson/cJSON.c:587-660 | One escape or a surrogate pair is read with its length; lone and mismatched surrogates fail |
| JsonParser.WriteUtf8 | 3rdparty/cjson/cjson/cJSON.c:662-705 | The bytes put in place from the back are the UTF-8 of the code point, and what was before them is kept |
| JsonParser.ParseBuffer.SkipWhitespace | 3rdparty/cjson/cjson/cJSON.c:973-991 | The offset moves to the first byte that is not blank, or back onto the terminator |
| JsonParser.ParseBuffer.SkipBom | 3rdparty/cjson/cjson/cJSON.c:994-1007 | A byte order mark at the start is skipped |
| JsonParser.ParseBuffer.CopyNumber | 3rdparty/cjson/cjson/cJSON.c:289-330 | The scratch buffer receives the run of number bytes, at most 63 of them |
| JsonParser.ParseBuffer.ParseNumber | 3rdparty/cjson/cjson/cJSON.c:276-350 | The number loop computes the number of the grammar and moves the offset behind it |
| JsonParser.ParseBuffer.MeasureString | 3rdparty/cjson/cjson/cJSON.c:724-750 | The first pass finds the closing quote and counts escapes |
| JsonParser.ParseBuffer.DecodeInto | 3rdparty/cjson/cjson/cJSON.c:764-822 | The decode pass writes exactly the decoded string into its allocation, without leaving it |
| JsonParser.ParseBuffer.ParseString | 3rdparty/cjson/cjson/cJSON.c:708-834 | The two passes together compute the string of the grammar; with memory they fail exactly where it does |
| JsonParser.ParseBuffer.ParseValue | 3rdparty/cjson/cjson/cJSON.c:1222-1274 | The parser computes the value and end offset of the grammar, restores the depth, and with memory fails exactly where the grammar does |
| JsonParser.ParseBuffer.ParseArray | 3rdparty/cjson/cjson/cJSON.c:1351-1442 | The same for arrays, with the nesting limit of 1000 |
| JsonParser.ParseBuffer.ParseItems | 3rdparty/cjson/cjson/cJSON.c:1378-1416 | The element loop collects the values of the grammar |
| JsonParser.ParseBuffer.ParseObject | 3rdparty/cjson/cjson/cJSON.c:1507-1613 | The same for objects |
| JsonParser.ParseBuffer.ParseMembers | 3rdparty/cjson/cjson/cJSON.c:1534-1587 | The member loop collects the members of the grammar in order |
| JsonParser.ParseBuffer.ParseMember | 3rdparty/cjson/cjson/cJSON.c:1557-1584 | One member: key, colon and value |
| JsonParser.ParseWithOpts | 3rdparty/cjson/cjson/cJSON.c:1010-1087 | A document is parsed as the grammar says, with or without the check for trailing text; the reported end of a parse that succeeds is where the value ends, which is the end of the text when trailing text is refused, and that of a failed one is never behind the terminator; with memory it fails exactly where the grammar does |
| JsonUnicode.Utf8IsRfc3629 | 3rdparty/cjson/cjson/cJSON.c:632-705 | The bytes written for a scalar value decode to it under section 4 of RFC 3629 |
| JsonUnicode.Utf8IsUnique | 3rdparty/cjson/cjson/cJSON.c:632-705 | Every well-formed sequence of section 4 of RFC 3629 is the one written for the scalar it decodes to |
| JsonUnicode.SpelledReads | 3rdparty/cjson/cjson/cJSON.c:550-583 | Four digits of either case read as the unit they spell, by a table of the 22 digit characters; a value other than zero is read only from digits that spell it |
| JsonPrinter.CountedLength | 3rdparty/cjson/cjson/cJSON.c:861-887 | The length counted by the first loop of print_string_ptr is the length of what the second loop writes |
| JsonPrinter.PrintBuffer.Ensure | 3rdparty/cjson/cjson/cJSON.c:383-468 | Room for the bytes and a terminator is made exactly when it can be, and the text so far is kept across growing |
| JsonPrinter.PrintBuffer.UpdateOffset | 3rdparty/cjson/cjson/cJSON.c:471-481 | After a C string was printed at or behind the offset, the offset stands right behind the whole text |
| JsonPrinter.PrintBuffer.PrintNumber | 3rdparty/cjson/cjson/cJSON.c:484-547 | The text so far followed by the numeral of the number, or null when it is not finite |
| JsonPrinter.PrintBuffer.PrintStringPtr | 3rdparty/cjson/cjson/cJSON.c:837-956 | The text so far followed by the quoted and escaped string |
| JsonPrinter.PrintBuffer.CountEscapes | 3rdparty/cjson/cjson/cJSON.c:861-887 | The counted length is that of the escaped string |
| JsonPrinter.PrintBuffer.WriteEscaped | 3rdparty/cjson/cjson/cJSON.c:909-950 | The second loop writes the escaped string |
| JsonPrinter.PrintBuffer.WriteByte | 3rdparty/cjson/cjson/cJSON.c:911-948 | One byte is written in its escaped form |
| JsonPrinter.PrintBuffer.PrintValue | 3rdparty/cjson/cjson/cJSON.c:1277-1348 | The buffer holds the mathematical concatenation of the text so far and the rendered value, terminated; it succeeds exactly when two bytes more than the text fit |
| JsonPrinter.PrintBuffer.PrintArray | 3rdparty/cjson/cjson/cJSON.c:1445-1504 | The same for arrays, with the depth restored |
| JsonPrinter.PrintBuffer.PrintItems | 3rdparty/cjson/cjson/cJSON.c:1469-1496 | The element loop writes the elements and separators in order |
| JsonPrinter.PrintBuffer.PrintObject | 3rdparty/cjson/cjson/cJSON.c:1616-1727 | The same for objects, with the depth restored |
| JsonPrinter.PrintBuffer.PrintMembers | 3rdparty/cjson/cjson/cJSON.c:1642-1706 | The member loop writes the members in order |
| JsonPrinter.PrintBuffer.PrintKey | 3rdparty/cjson/cjson/cJSON.c:1644-1682 | Indentation, quoted key and colon |
| JsonPrinter.PrintBuffer.PrintMember | 3rdparty/cjson/cjson/cJSON.c:1644-1704 | One member with its separator and line end |
| JsonPrinter.Print | 3rdparty/cjson/cjson/cJSON.c:1097-1159 | The result is the rendered text and its terminator; with memory it fails only on texts that reach INT_MAX bytes |
| JsonPrinter.PrintPreallocated | 3rdparty/cjson/cjson/cJSON.c:1202-1219 | It succeeds if and only if the buffer has two bytes more than the text, and then starts with the terminated text |
| JsonConfig.SaveThenLoad | apps/common/json_config.c:19-87 | A saved configuration is loaded again unchanged when its numbers are finite; with memory it is lost only when nested too deep or too long |
| AttachTheorems.RunsAreSafe | src/core/nc_attacher.c:279-646 | Every run the platform contract allows keeps the invariants on wake-ups, sessions, tokens and history |
| AttachTheorems.NeverStuck | src/core/nc_attacher.c:279-526 | A running attacher waits for exactly one of DNS query, DTLS session and timer, the one its state names; an open session that is not attached has exactly one request under way |
| AttachTheorems.ClosedOnlyCloses | src/core/nc_attacher.c:279-526 | A closed attacher stays closed, can only change to CLOSED, and starts no lookup, session or timer |
| AttachTheorems.CloseCompletes | src/core/nc_attacher.c:225-320 | While a close callback is owed, what it waits for is outstanding and brings it closer, and no event moves it away |
| AttachTheorems.CloseCallbackOncePerRequest | src/core/nc_attacher.c:225-320 | The close callback runs at most once per close request |
| AttachTheorems.QueueOrderMatters | src/core/nc_attacher.c:310-320 | If a close event posted before start ran after the DNS answer, a running attacher would be left with nothing to wait for; the queue order of the contract excludes this |
| AttachTheorems.AtMostFiveLookups | src/core/nc_attacher.c:417-500 | Between firings of the reattach timer there are at most five DNS lookups and no more DTLS connects than lookups |
| AttachTheorems.AttachedInOrder | src/core/nc_attacher.c:536-641 | Each ATTACHED event follows handshake, attach-start, settled tokens and attach-end of its own session, each once and in that order |
| AttachTheorems.AttachedWithTokens | src/core/nc_attacher.c:536-641 | In every run, whenever the device attaches, the server has acknowledged exactly the token version and the tokens there were when the attach-start of this session was accepted |
| AttachTheorems.TokensAreCarried | src/core/nc_attacher.c:556-613 | In every run an attach upload carries the tokens of its attach-start, and while attach-end is under way the server has acknowledged them |
| AttachTheorems.NoDoubleDetach | src/core/nc_attacher.c:455-500 | Between two DETACHED events there is an ATTACHED event |
| AttachDiagram.RedirectIsFollowed | src/core/nc_attacher.c:455-500 | In every run, when the session of a running attacher closes after its attach-start was answered with a redirect, a lookup follows if fewer than five redirects were answered since the start or the latest firing of the timer, and otherwise the timer is armed |
| AttachDiagram.RedirectsAreCounted | src/core/nc_attacher.c:417-500 | In every run the redirect counter is the number of redirects answered since the start or the latest firing of the timer |
| AttachDiagram.FollowsTheDiagram | src/core/nc_attacher.c:279-646 | In every run of a running attacher each event leads to the state the diagram gives, opens, keeps, closes or ends the session as the diagram says, and sends attach-start and attach-end exactly then: a keep alive timeout closes the session, a handshake without ALPN sends no attach-start, a denied device waits for the longer time |
| AttachDiagram.StartsWithLookup | src/core/nc_attacher.c:207-223 | An attacher that was not started has nothing outstanding, and starting it looks up the host |
| AttachDiagram.CloseIsTaken | src/core/nc_attacher.c:225-308 | What a close or stop does at once in each state: an attacher that waits is closed and its close event posted, one with a session ends it, one with a lookup waits for the answer |
| AttachDiagram.ClosedFollowsTheDiagram | src/core/nc_attacher.c:381-641 | A closed attacher is done when the lookup or session it waited for has ended, and sends no attach-start or attach-end |
| AttachDiagram.CloseEventTells | src/core/nc_attacher.c:310-320 | The owner is told exactly when the close event runs after a close was asked for and the event has not run since |
| AttachDiagram.TokensAreCounted | src/core/nc_attacher.c:244-257 | In every run the token version counts the tokens added, stored or not, and the local tokens are those stored |
| AttachTheorems.TokenVersions | src/core/nc_attacher_sct.c:23-99 | synchronizedVersion <= uploadingVersion <= version; an upload in flight means the versions differ; equal versions mean that the latest acknowledged upload carried exactly the local tokens |
| AttachTheorems.AttemptsAreRecorded | src/core/nc_attacher_sct.c:23-99 | After every run an upload is in flight exactly when the latest attempt in its events had memory and no reply yet |
| AttachTheorems.SynchronizingIff | src/core/nc_attacher.c:244-257 | While attached, a version mismatch is being uploaded or its latest attempt failed, in terms of the events of the run; this fails exactly when a token could not be stored since an acknowledged upload, or before any |
| AttachTheorems.StoredTokensSynchronize | src/core/nc_attacher.c:244-257 | If every added token is stored, a mismatch while attached is being uploaded or its latest attempt failed, in every run |
| AttachTheorems.RefusedTokenIsNotSynchronized | src/core/nc_attacher.c:244-257 | A run in which a token that cannot be stored raises the version and nothing uploads it |
| AttachSafety.WiredStep | src/core/nc_attacher.c:279-646 | Every event keeps the match of state and wake-up source and the single request under way on an open session |
| AttachSafety.TokensStep | src/core/nc_attacher_sct.c:23-99 | Adding, uploading and answering keep what the token versions mean |
| AttachSafety.TokensKeptOnRequest | src/core/nc_attacher.c:244-257 | Adding a token and every other call keep the tokens covered while attached |
| AttachSafety.TokensKeptOnReply | src/core/nc_attacher.c:536-641 | Every answer keeps the tokens covered while attached |
| AttachSafety.TokensKeptOnNetwork | src/core/nc_attacher.c:381-526 | DNS, DTLS and timer events keep the tokens covered while attached |
| AttachHistory.HistoryStep | src/core/nc_attacher.c:279-646 | Every event keeps the bounds on lookups, the order of attach steps, the pairing of attach events and the account of close callbacks |
| Attacher.Replay | src/core/nc_attacher.c:207-646 | The handlers, called for the events of any allowed run, are in the state of the protocol |
| Attacher.AttachContext.Deliver | src/core/nc_attacher.c:207-646 | Each handler makes exactly the step of its event |
| Attacher.AttachContext.Start | src/core/nc_attacher.c:207-223 | Starting works once, in setup, and begins with a lookup |
| Attacher.AttachContext.AsyncClose | src/core/nc_attacher.c:225-231 | The close request is noted, then closing proceeds |
| Attacher.AttachContext.Stop | src/core/nc_attacher.c:236-242 | Closing without a callback |
| Attacher.AttachContext.AddServerConnectToken | src/core/nc_attacher.c:244-257 | The new version, the token set and the upload that is started while attached; OUT_OF_MEMORY exactly when the token is not stored |
| Attacher.AttachContext.IsSynchronized | src/core/nc_attacher.c:261-273 | In progress exactly while attached with different versions |
| Attacher.AttachContext.DoClose | src/core/nc_attacher.c:279-308 | What closing does in each state |
| Attacher.AttachContext.ResolveClose | src/core/nc_attacher.c:310-320 | The callback is called once and both events are cancelled |
| Attacher.AttachContext.HandleStateChange | src/core/nc_attacher.c:343-373 | What is started on entering a state |
| Attacher.AttachContext.DnsResolvedCallback | src/core/nc_attacher.c:381-415 | The answer closes, retries or connects |
| Attacher.AttachContext.Reattach | src/core/nc_attacher.c:417-429 | The timer starts over with no redirects counted |
| Attacher.AttachContext.DtlsEventHandler | src/core/nc_attacher.c:431-453 | The three DTLS events, also when closed |
| Attacher.AttachContext.HandleDtlsClosed | src/core/nc_attacher.c:455-500 | What a closed session means in each state, with the redirect limit |
| Attacher.AttachContext.HandleDtlsConnected | src/core/nc_attacher.c:502-534 | Attach-start is sent unless there is no ALPN, no memory or one outstanding |
| Attacher.AttachContext.AttachStartRequest | src/core/nc_attacher_attach_start.c:27-76 | One request at a time, on the present session |
| Attacher.AttachContext.AttachStartHandler | src/core/nc_attacher.c:536-554 | Attached, redirect and error answers, also when closed |
| Attacher.AttachContext.SendAttachSctRequest | src/core/nc_attacher.c:556-567 | Tokens are uploaded, or attaching goes on when there is nothing to upload |
| Attacher.AttachContext.SendAttachSctRequestCallback | src/core/nc_attacher.c:569-583 | Attaching goes on after an acknowledged upload and is given up otherwise |
| Attacher.AttachContext.SctUpload | src/core/nc_attacher_sct.c:23-77 | The three outcomes of trying to upload, and what the upload carries |
| Attacher.AttachContext.SendSctRequest | src/core/nc_attacher.c:585-595 | Uploading while attached |
| Attacher.AttachContext.SctRequestHandler | src/core/nc_attacher_sct.c:79-99 | An acknowledged upload moves synchronizedVersion; then its callback runs |
| Attacher.AttachContext.AttachEndRequest | src/core/nc_attacher_attach_end.c:9-30 | One request at a time, on the present session |
| Attacher.AttachContext.SendAttachEndRequest | src/core/nc_attacher.c:607-613 | Attach-end is sent or the session is closed |
| Attacher.AttachContext.AttachEndHandler | src/core/nc_attacher.c:616-641 | The device is attached, says so, and uploads tokens added meanwhile |
| Attacher.AttachContext.KeepAliveTimeout | src/core/nc_attacher.c:734-756 | A keep alive timeout closes the session |
| KeepAlive.CountersRecordSilence | src/core/nc_keep_alive.c:58-77 | While settings and packet counts stay below 2^32 the counter is the number of silent ticks since the latest two-way progress, up to the limit |
| KeepAlive.ActsOnTime | src/core/nc_keep_alive.c:58-77 | A probe is asked for on exactly the silent ticks n+1 to n+maxRetries+1 when none is being sent, and the timeout comes on exactly silent tick n+maxRetries+2 |
| KeepAlive.OverflowMissesTimeout | src/core/nc_keep_alive.c:58-77 | When n+maxRetries+1 reaches 2^32 some history times out at the wrong tick or never |
| KeepAlive.CountOverflowMissesTimeout | src/core/nc_keep_alive.c:58-77 | A history whose packet count reaches 2^32, where progress in both directions is taken for silence and the timeout comes too early |
| KeepAlive.OnTimeIff | src/core/nc_keep_alive.c:58-77 | The timeout is on time for every history with packet counts up to a limit if and only if n+maxRetries+1 and the limit are below 2^32 |
| KeepAlive.KeepAliveContext.SetSettings | src/core/nc_keep_alive.c:50-56 | n is the number of whole retry intervals in the interval; the division is undefined exactly for a retry interval of zero |
| KeepAlive.KeepAliveContext.Decide | src/core/nc_keep_alive.c:58-77 | The decision and the new counters for one tick, with 32-bit sums |
| KeepAlive.KeepAliveContext.OnTimer | src/core/nc_client_connection.c:227-262 | Over a history of ticks the handler acts on time and builds a probe only when the send buffer is free |
| KeepAlive.KeepAliveContext.CreateRequest | src/core/nc_keep_alive.c:84-94 | The eighteen bytes of a probe, written out; a packet that is still outstanding is overwritten exactly when the caller does not ask first |
| KeepAlive.KeepAliveContext.HandleRequest | src/core/nc_keep_alive.c:96-111 | An answer repeats the sixteen bytes of a request of at least eighteen, and none is built while a packet is outstanding |
| KeepAlive.Replay | src/core/nc_client_connection.c:227-262 | With any settings, in any run of ticks, requests and sent packets, every tick acts on the whole history and an outstanding packet is never overwritten |
| KeepAlive.BusyIff | src/core/nc_keep_alive.c:84-117 | In every run a packet is outstanding exactly when a probe or an answer was put out and none has been sent since |
| DnsMerge.InterleaveContents | src/core/nc_dns_multi_resolver.c:61-87 | The alternation holds each address of both families once |
| DnsMerge.FirstPositions | src/core/nc_dns_multi_resolver.c:61-87 | Where each address of the first family stands |
| DnsMerge.SecondPositions | src/core/nc_dns_multi_resolver.c:61-87 | Each address of the second family stands right behind its partner |
| DnsMerge.RoundsInterleave | src/core/nc_dns_multi_resolver.c:70-84 | The rounds of the merge loop produce the alternation |
| DnsMerge.ResolveInEitherOrder | src/core/nc_dns_multi_resolver.c:32-99 | Whichever family answers first, there is one completion, OK when either family answered and else the error of the first, and the same addresses |
| DnsMerge.MultiResolver.ResolvedV4 | src/core/nc_dns_multi_resolver.c:47-52 | The first answer waits, the second completes once with the merged result |
| DnsMerge.MultiResolver.ResolvedV6 | src/core/nc_dns_multi_resolver.c:54-59 | The same for the other family |
| DnsMerge.MultiResolver.Resolved | src/core/nc_dns_multi_resolver.c:89-99 | Completion only after both answers |
| DnsMerge.MultiResolver.ResolvedEc | src/core/nc_dns_multi_resolver.c:61-87 | The array holds the first ipsSize addresses of the alternation; an error only when both families failed, and then array and count are as they were |
| DnsMerge.CollectEndpoints | src/core/nc_attacher.c:393-409 | Every resolved address becomes an endpoint with the current port, in order; the loop stays inside the array if and only if there is room for all addresses |
| DnsMerge.ResolveEndpoints | src/core/nc_attacher.c:375-409 | From the two answers in either order to the endpoints: the first addresses of the alternation with the current port, and never more than the array holds |
| Listeners.EveryEventReachesTheCallback | src/api/nabto_device_event_handler.c:53-211 | In every run the callback has seen the accepted events in order, each once, up to those still queued; all of them once the listener has ended |
| Listeners.AbortedIsLast | src/api/nabto_device_event_handler.c:184-211 | In every run ABORTED is called exactly once, as the last call, when the listener has ended |
| Listeners.KthFutureKthEvent | src/api/nabto_device_event_handler.c:92-182 | In every run the k-th armed future is resolved with the answer for the k-th accepted event or with the error that ended the listener; a waiting future means that no event is queued |
| Listeners.PairIsResolved | src/api/nabto_device_event_handler.c:163-182 | An event that meets a waiting future, or a future that meets a queued event, resolves it at once with the answer of the callback, or with UNKNOWN when the listener has none |
| Listeners.EndReachesEveryone | src/api/nabto_device_event_handler.c:184-211 | When an error or stop ends a listener, the events no future has taken reach the callback in order with that error, STOPPED for ABORTED, then ABORTED comes once without an event, and a waiting future is resolved with the error |
| Listeners.CallersAreTold | src/api/nabto_device_event_handler.c:53-160 | What every caller is told: INVALID_STATE before the first initialisation, the standing error once there is one, before that OK, OPERATION_IN_PROGRESS for a second future and STOPPED for a stop |
| Listeners.Reinitialized | src/api/nabto_device_event_handler.c:36-51 | A second initialisation empties the queue; a future that waits goes on waiting |
| Listeners.AcceptedIff | src/api/nabto_device_event_handler.c:53-65 | An event is accepted exactly when the listener was initialised and no error or stop came after that |
| Listeners.ArmedIff | src/api/nabto_device_event_handler.c:92-106 | A future is armed exactly when the listener is open and there are no more armed futures than accepted events |
| Listeners.OpenIff | src/api/nabto_device_event_handler.c:36-160 | A listener is open from an initialisation to the first error or stop behind it |
| Listeners.RunIsLawful | src/api/nabto_device_event_handler.c:36-211 | After every run queue, waiting future, calls and resolved futures are what the accepted events and armed futures of the run make them: deliveries in pairs, then the drained events, then one ABORTED |
| Listeners.ReportEndsIff | src/api/nabto_device_event_handler.c:120-128 | Whatever came before, reporting a code ends the listener if and only if it is an error or the listener was never initialised; otherwise the next event is taken and reaches no callback |
| Listeners.InitializedIff | src/api/nabto_device_event_handler.c:36-51 | A listener is initialised exactly when it ever was |
| Listeners.Replay | src/api/nabto_device_event_handler.c:36-211 | The code follows every sequence of initialising, adding, arming, errors and stops, and answers each call as the run says |
| Listeners.Listener.Apply | src/api/nabto_device_event_handler.c:36-211 | Each operation makes exactly the step of its use |
| Listeners.Listener.Init | src/api/nabto_device_event_handler.c:36-51 | A listener starts, or starts over, without events, future or history |
| Listeners.Listener.AddEvent | src/api/nabto_device_event_handler.c:53-65 | The step of adding an event and its return code |
| Listeners.Listener.InitFuture | src/api/nabto_device_event_handler.c:92-106 | One future at a time, with the error codes of each refusal |
| Listeners.Listener.Arm | src/api/nabto_device_authorization_events.c:58-87 | Arming pairs the future with the next event |
| Listeners.Listener.TryResolve | src/api/nabto_device_event_handler.c:163-182 | The front event is paired with the waiting future |
| Listeners.Listener.SetErrorCode | src/api/nabto_device_event_handler.c:120-128 | The step of an error, whatever its code, also before initialisation |
| Listeners.Listener.Stop | src/api/nabto_device_event_handler.c:150-160 | Stopping once, and its return codes |
| Listeners.Listener.DrainEvents | src/api/nabto_device_event_handler.c:192-200 | Queued events go to the callback in order |
| Listeners.Listener.ResolveErrorState | src/api/nabto_device_event_handler.c:184-211 | Drained events, the waiting future and the last call |
| Futures.RunsAccount | src/api/nabto_device_future.c:52-155 | In every interleaving each future has its callback in the queue, with the thread or called, exactly once when resolved and asked for |
| Futures.CallbackAtMostOnce | src/api/nabto_device_future.c:133-155 | The callback runs at most once per operation, with the resolved code, and a future is never queued twice |
| Futures.NothingLostAtExit | src/api/nabto_device_future_queue.c:48-68 | When the stopped thread exits, every resolved operation with a callback has been called with its code |
| Futures.CalledInOrder | src/api/nabto_device_future_queue.c:27-68 | In every interleaving the callbacks are made in the order in which they became due, each with the code its operation was resolved with |
| Futures.ExitIff | src/api/nabto_device_future_queue.c:48-68 | The thread may exit exactly when it was told to stop and every callback that became due has been made |
| Futures.OperationIs | src/api/nabto_device_future.c:52-155 | In every run a future knows exactly what was asked of and reported to its present operation |
| Futures.CallsAreMade | src/api/nabto_device_future_queue.c:48-68 | While a call is owed the thread has a step to take, and its steps shorten the backlog |
| Futures.ReuseIff | src/api/nabto_device_future.c:122-130 | Whatever happens after an operation is started over on a future, its callback runs at most once, with the code of the new operation and not before it is resolved, if and only if no call of the old operation is owed or the thread has exited |
| Futures.OwedCallBreaksPromise | src/api/nabto_device_future.c:122-155 | A continuation in which the call owed for the old operation reaches the callback of the new one |
| Futures.PolledReuseLosesCallback | include/nabto/nabto_device.h:1174-1184 | A future that polls as resolved may still be queued: reusing it then loses the callback, contrary to the documented rule |
| Futures.Replay | src/api/nabto_device_future.c:52-155 | The code follows every interleaving of the steps |
| Futures.FutureSystem.Deliver | src/api/nabto_device_future.c:52-155 | Each operation makes exactly the step of its event |
| Futures.FutureSystem.SetCallback | src/api/nabto_device_future.c:52-67 | The callback is stored, and queued if the future is ready |
| Futures.FutureSystem.Resolve | src/api/nabto_device_future.c:144-155 | The code is stored, and the future queued if it has a callback |
| Futures.FutureSystem.ErrorCode | src/api/nabto_device_future.c:106-120 | Polling gives the resolved code or not resolved |
| Futures.FutureSystem.PopRound | src/api/nabto_device_future_queue.c:48-68 | Queued futures go first; only an empty queue and a stop end the thread |
| Futures.FutureSystem.TakeCallback | src/api/nabto_device_future.c:133-138 | The callback is taken under the lock |
| Futures.FutureSystem.CallCallback | src/api/nabto_device_future.c:139-142 | The taken callback is called with the code read at that time |
| Authorization.RunsKeep | src/api/nabto_device_authorization.c:32-135 | Every order of calls and events keeps the flags in step with what has happened |
| Authorization.FreedOnce | src/api/nabto_device_authorization.c:54-135 | Freed at most once: exactly when the platform has discarded it or been called and the application, if it was queued for it, has freed it; nothing that can still happen touches a freed request |
| Authorization.FirstVerdictCounts | src/api/nabto_device_authorization.c:64-112 | In every run the verdict callback has run exactly when the verdict event has, once, with the first verdict the application gave or with a denial when it gave none |
| Authorization.SettledIsFreed | src/api/nabto_device_authorization.c:54-135 | When nothing more can happen the request is freed exactly once unless the listener stopped with the request in its queue; unless it was discarded or dropped that way the callback ran exactly once, with the first verdict of the events |
| Authorization.DroppedRequestIsNotFreed | src/api/nabto_device_authorization_events.c:16-32 | A run that has come to its end with a request that is neither answered nor freed |
| Authorization.LostByStop | src/api/nabto_device_authorization_events.c:16-32 | The request is lost exactly when the listener stopped while it was queued |
| Authorization.DeniedWithoutVerdict | src/api/nabto_device_authorization.c:74-135 | Without a verdict from the application the answer is a denial |
| Authorization.RankFalls | src/api/nabto_device_authorization.c:54-135 | Every event but a further verdict brings the request closer to its end |
| Authorization.Replay | src/api/nabto_device_authorization.c:32-150 | The code follows every order of verdicts, frees and events |
| Authorization.AuthorizationRequest.Deliver | src/api/nabto_device_authorization.c:54-150 | Each operation makes exactly the step of its event |
| Authorization.AuthorizationRequest.DiscardRequest | src/api/nabto_device_authorization.c:54-62 | A discarded request is freed |
| Authorization.AuthorizationRequest.CheckAccess | src/api/nabto_device_authorization.c:74-101 | The request is queued, or denied at once |
| Authorization.AuthorizationRequest.GiveVerdict | src/api/nabto_device_authorization.c:104-112 | The first verdict is stored and posted, later ones change nothing |
| Authorization.AuthorizationRequest.RequestFree | src/api/nabto_device_authorization.c:118-135 | A missing verdict becomes a denial; the request is freed if the platform is done |
| Authorization.AuthorizationRequest.HandleVerdict | src/api/nabto_device_authorization.c:64-72 | The callback is called; the request is freed if the API is done |
| ClientConnection.Replay | src/core/nc_client_connection.c:33-206 | After any datagrams the current channel is that of the highest-sequence record that is no keep alive, at the source of the latest datagram on that channel; defined if and only if every datagram holds a connection id |
| ClientConnection.ChannelIsHighestPacket | src/core/nc_client_connection.c:85-191 | In terms of the packets: the current channel is byte 15 of the packet with the first record of the highest sequence number that carries application data, rendezvous requests aside |
| ClientConnection.ChannelIsFirst | src/core/nc_client_connection.c:33-83 | Without such a record it is byte 15 of the packet that opened the connection |
| ClientConnection.SourceIsLatestPacket | src/core/nc_client_connection.c:104-119 | The endpoint of a channel is where the latest packet on it came from, rendezvous requests aside |
| ClientConnection.TopChannelIsHighest | src/core/nc_client_connection.c:176-191 | That channel is the one of the first record with the highest sequence number |
| ClientConnection.TopChannelWithoutData | src/core/nc_client_connection.c:41-46 | Without such a record it is the channel the connection was opened on |
| ClientConnection.SourceIsLatest | src/core/nc_client_connection.c:104-119 | Its endpoint is the source of the latest datagram on it |
| ClientConnection.TopSequenceBounds | src/core/nc_client_connection.c:185-186 | The stored sequence number is at least that of every record that is no keep alive |
| ClientConnection.Open | src/core/nc_client_connection.c:33-83 | The opening datagram and its records are the start of the history; undefined exactly when it is shorter than a connection id |
| ClientConnection.Connection.HandlePacket | src/core/nc_client_connection.c:85-125 | Every datagram that is no rendezvous request extends the history, and the two channels keep summarising it; undefined exactly for datagrams shorter than a connection id |
| ClientConnection.Connection.HandleRecords | src/core/nc_client_connection.c:121-124 | The records of a datagram are delivered in order on its channel |
| ClientConnection.Connection.HandleData | src/core/nc_client_connection.c:170-191 | A record extends the history and moves the channel when its sequence number is the highest |
| ClientConnection.Connection.SendTarget | src/core/nc_client_connection.c:298-327 | Packets go to the current channel, or to the other one when it was asked for; an answer on the channel of the latest datagram goes to its source |
| ConnectionTable.NextConnectionRef | src/core/nc_device.c:278-288 | References count up from one; the counter wraps and the wrapped value is refused |
| ConnectionTable.IdsAreDistinct | src/core/nc_client_connection_dispatch.c:73-107 | In every run active connections have different fourteen byte ids |
| ConnectionTable.RoutedToOwner | src/core/nc_client_connection_dispatch.c:73-90 | In every run a packet is routed to a connection exactly when that connection is active with the id of the packet |
| ConnectionTable.OpenedIff | src/core/nc_client_connection_dispatch.c:92-107 | In every run a packet opens a connection exactly when no open one has its id, it is a handshake record, a slot is free, the connection can be set up and the counter gives a reference; it gets the first free slot and the number of its draw modulo 2^64 |
| ConnectionTable.HoldsIff | src/core/nc_client_connection_dispatch.c:73-122 | In every run a slot holds exactly the connection that a packet with its id opened there and nothing closed since |
| ConnectionTable.DrawsCounted | src/core/nc_client_connection.c:51-54 | The counter counts the packets that opened or tried to open a connection |
| ConnectionTable.RefsAreDistinct | src/core/nc_client_connection.c:51-54 | In every run with at most 2^64 draws active references differ from each other and from every retired one |
| ConnectionTable.DistinctIff | src/core/nc_device.c:278-288 | Active references differ in every run with n draws if and only if n is at most 2^64 |
| ConnectionTable.OverdrawnShares | src/core/nc_device.c:278-288 | For every larger number of draws a run in which two active connections share a reference |
| ConnectionTable.OpenedOnce | src/core/nc_client_connection.c:33-83 | In every run with at most 2^64 draws all connections ever opened have different references |
| ConnectionTable.RetiredIff | src/core/nc_client_connection_dispatch.c:109-122 | The retired references are exactly those of the connections closed in the run |
| ConnectionTable.LookupIff | src/core/nc_client_connection_dispatch.c:125-134 | In every run with at most 2^64 draws a reference finds exactly the active connection it was given to |
| ConnectionTable.RetiredStaysDead | src/core/nc_client_connection_dispatch.c:125-134 | The reference of a connection closed at any time before never resolves again |
| ConnectionTable.Replay | src/core/nc_client_connection_dispatch.c:73-134 | The code follows every run of packets and closes and routes each as the run says |
| ConnectionTable.Dispatch.HandlePacket | src/core/nc_client_connection_dispatch.c:73-107 | A packet goes to the first connection with its id; otherwise a handshake packet opens the first free slot, and anything else is dropped |
| ConnectionTable.Dispatch.OpenIn | src/core/nc_client_connection.c:33-83 | An opened slot holds the id and a new reference; a failed one stays free but uses up a reference |
| ConnectionTable.Dispatch.CloseConnection | src/core/nc_client_connection_dispatch.c:109-122 | The slot is free and its reference retired |
| ConnectionTable.Dispatch.ConnectionFromRef | src/core/nc_client_connection_dispatch.c:125-134 | The lookup of the model: the first active slot with the reference |
| StreamRuns.EachReadIsItsBlock | src/core/nc_stream.c:342-452 | In every run, whatever the transport answers, the callback of each read comes with the bytes of the stream right behind those of the reads before it; if it says OK, a full read has filled its buffer and a partial one has brought something |
| StreamRuns.OneCallbackPerRead | src/core/nc_stream.c:342-452 | In every run the reads begun have had one callback each, in order, but for one that may be under way, and together they hold a prefix of what has arrived |
| StreamRuns.ReadsHold | src/core/nc_stream.c:342-452 | In every run callbacks and the read under way hold exactly the bytes consumed of those that arrived |
| StreamRuns.ReadsAreConsecutive | src/core/nc_stream.c:419-452 | The data of finished reads are consecutive blocks of what was delivered |
| StreamRuns.WritesInOrder | src/core/nc_stream.c:374-476 | In every run the writes begun have had one callback each, in order, but for one that may be under way; what was sent is what they handed over, in order, all of it for those that say OK |
| StreamRuns.SentInFull | src/core/nc_stream.c:374-476 | Once every write begun has succeeded, exactly their bytes were sent |
| StreamRuns.WaitsOnlyWhenBlocked | src/core/nc_stream.c:426-476 | In every run a read or write is under way only because the latest answer of the transport to it was to move nothing, and it has room or bytes left |
| StreamRuns.CallbackSaysWhy | src/core/nc_stream.c:426-476 | Unless the stream is destroyed, a read or write ends with the code of the latest answer of the transport |
| StreamRuns.ErrorEndsRead | src/core/nc_stream.c:426-537 | In every run, when a read is begun, when data comes and when the peer or the whole stream ends: if the transport hands over some bytes that do not fill the read and then an error, exactly that read ends, with those bytes and the named code |
| StreamRuns.ErrorEndsWrite | src/core/nc_stream.c:453-537 | The same for writes, when they are begun, when the transport has room and when the whole stream ends |
| StreamRuns.CloseSaysWhy | src/core/nc_stream.c:478-537 | A close ends with the status of the transport: OK when closed, else the named code |
| StreamRuns.NothingLeftLying | src/core/nc_stream.c:434-440 | When a read is begun, when data comes and when the peer or the whole stream ends: if the transport moves at least a byte whenever it can, no byte that has arrived is left lying while a read waits |
| StreamRuns.EagerWriteEnds | src/core/nc_stream.c:461-469 | When a write is begun, when the transport has room and when the whole stream ends: if the transport takes at least a byte at a time, the write succeeds |
| StreamRuns.AcceptingIff | src/core/nc_stream.c:330-340 | An accept is under way exactly when one was asked for and the stream has neither opened nor ended since |
| StreamRuns.ClosingIff | src/core/nc_stream.c:389-398 | A close is under way exactly when the transport put one off and has not ended it since |
| StreamRuns.ControlCodes | src/core/nc_stream.c:478-537 | The accept and close callbacks of every run and their codes |
| StreamRuns.OneCallbackPerAcceptAndClose | src/core/nc_stream.c:330-398 | In every run each accept and close begun has had one callback or is under way |
| StreamRuns.TakenIff | src/core/nc_stream.c:330-398 | In every run each call is taken exactly when every operation of its kind begun before has had its callback |
| StreamRuns.DestroyEndsAll | src/core/nc_stream.c:104-132 | When a stream is destroyed every operation ever begun has had exactly one callback |
| StreamIO.Stream.DoRead | src/core/nc_stream.c:419-452 | The recursion reads on until the read has what it asked for, an error ends it, or it would block |
| StreamIO.Stream.AsyncRead | src/core/nc_stream.c:342-372 | One read at a time, of any length, which starts reading at once |
| StreamIO.Stream.ResolveRead | src/core/nc_stream.c:400-417 | The one read under way ends, with what it put in the buffer |
| StreamIO.Stream.DoWriteAll | src/core/nc_stream.c:453-476 | The recursion hands over what is left until all is taken, an error ends it, or it would block |
| StreamIO.Stream.AsyncWrite | src/core/nc_stream.c:374-387 | One write at a time, of any length, which starts writing at once |
| StreamIO.Stream.ResolveWrite | src/core/nc_stream.c:459-474 | The one write under way ends |
| StreamIO.Stream.AsyncAccept | src/core/nc_stream.c:330-340 | One accept at a time |
| StreamIO.Stream.AsyncClose | src/core/nc_stream.c:389-398 | One close at a time, and how the answer of the transport ends it |
| StreamIO.Stream.HandleClose | src/core/nc_stream.c:478-495 | A close waits, succeeds when already closed, or ends with the error |
| StreamIO.Stream.ResolveAccept | src/core/nc_stream.c:501-506 | An accept ends once |
| StreamIO.Stream.ApplicationEvent | src/core/nc_stream.c:497-541 | What each event of the transport does to reads, writes, accepts and closes |
| StreamIO.Stream.HandleTransportClosed | src/core/nc_stream.c:527-537 | A closed transport tries the write, aborts the accept, tries the read and the close, in this order |
| StreamIO.Stream.Destroy | src/core/nc_stream.c:104-132 | Whatever is under way is aborted once; the stream is not used after that |
| StreamIO.Stream.Apply | src/core/nc_stream.c:104-541 | Each operation makes exactly the step of its use and is taken exactly when the run says |
| StreamIO.Replay | src/core/nc_stream.c:104-541 | For every run of operations, arriving bytes and events, with any answers of the transport, the code is in the state of the run and takes each call as the run says |
| StreamIO.Transport.ReadBuffer | src/core/nc_stream.c:426 | The contract of the transport for reading: the bytes that follow, as many as its next answer says |
| StreamIO.Transport.WriteBuffer | src/core/nc_stream.c:456 | The contract of the transport for writing: from the front, as many as its next answer says |
| StreamManager.StreamTable.FindStream | src/core/nc_stream_manager.c:157-166 | The lookup loop finds the first slot of the connection with the id, active or not |
| StreamManager.StreamZeroIsMisled | src/core/nc_stream_manager.c:157-166 | A run after which the lookup of stream zero finds an ended stream |
| StreamManager.FindIff | src/core/nc_stream_manager.c:157-166 | In every run the lookup finds exactly the owner of a stream if and only if it is not misled by an ended stream of the connection in front of it, which is possible for id zero only |
| StreamManager.MisledIff | src/core/nc_stream_manager.c:157-166 | The lookup of stream zero is misled exactly when a stream of the connection has ended in a slot that was not taken again, the connection has not ended since, and its stream zero does not live in a slot below |
| StreamManager.EndedIff | src/core/nc_stream.c:104-132 | In every run a slot remembers the connection of an ended stream exactly when that can be told from the uses |
| StreamManager.OwnerIsUnique | src/core/nc_stream_manager.c:157-187 | In every run a stream id of a connection has at most one active slot, and it is even |
| StreamManager.OwnerIff | src/core/nc_stream_manager.c:84-187 | In every run a slot holds a stream of a connection exactly when a packet of that connection opened it there and neither has ended since |
| StreamManager.HandledIff | src/core/nc_stream_manager.c:84-126 | In every run a packet goes to slot i exactly when i is the first slot where its stream of its connection lives, or for id zero one has ended; if the stream lives in slot i and its lookup is not misled, the packet goes there |
| StreamManager.AcceptedIff | src/core/nc_stream_manager.c:102-187 | In every run a packet opens a stream in slot i exactly when no slot answers it, its flag byte is SYN, its id is even, the stream can be made ready, and i is the first free slot |
| StreamManager.ResetIff | src/core/nc_stream_manager.c:113-220 | In every run a reset is sent exactly for a packet that nothing answers, that opens no stream and is no reset itself, when none is on its way and there is memory; its bytes name the stream |
| StreamManager.ResetBusyIff | src/core/nc_stream_manager.c:189-227 | A reset is on its way exactly when one was sent and none has left since |
| StreamManager.MalformedIff | src/core/nc_stream_manager.c:84-100 | A packet goes nowhere exactly when it has less than four bytes or no stream id can be read from it |
| StreamManager.RunKeepsInv | src/core/nc_stream_manager.c:84-300 | Every run of packets, ending streams, ending connections and sent resets keeps ids even and owners unique |
| StreamManager.FlagsIff | src/core/nc_stream_manager.c:84-127 | In every run a packet alone decides what happens to it if and only if it goes on behind its stream id or the lookup finds its stream; otherwise the byte behind it in memory decides |
| StreamManager.PacketEndsWithItsId | src/core/nc_stream_manager.c:84-100 | A packet of five bytes whose fate is decided by the byte behind it |
| StreamManager.ResetNamesItsStream | src/core/nc_stream_manager.c:189-220 | Reading the stream id of a reset gives the stream it was sent for |
| StreamManager.Replay | src/core/nc_stream_manager.c:84-300 | The code follows every run and gives each packet the outcome the run says |
| StreamManager.StreamTable.Apply | src/core/nc_stream_manager.c:84-300 | Each operation makes exactly the step of its use |
| StreamManager.StreamTable.AcceptStream | src/core/nc_stream_manager.c:168-187 | Only even ids are accepted, in the first free slot, when the connection can take a stream |
| StreamManager.StreamTable.DestroyStream | src/core/nc_stream.c:104-132 | The slot is free and its id cleared |
| StreamManager.StreamTable.RemoveConnection | src/core/nc_stream_manager.c:291-300 | No slot names the address any more, so a new connection at the same address owns no stream |
| StreamManager.StreamTable.HandlePacket | src/core/nc_stream_manager.c:84-127 | A packet without a readable stream id goes nowhere, any other is routed by the id and the flag byte read from memory |
| StreamManager.StreamTable.HandleStreamPacket | src/core/nc_stream_manager.c:102-126 | The owner gets the packet, else a SYN opens a stream, else a reset is sent unless it was one |
| StreamManager.StreamTable.SendRst | src/core/nc_stream_manager.c:189-220 | A reset names the stream id that was read from the packet; one is sent at a time |
| StreamManager.ListenerPorts.PortInUse | src/core/nc_stream_manager.c:45-55 | Whether a port has a listener |
| StreamManager.ListenerPorts.EphemeralPort | src/core/nc_stream_manager.c:321-339 | A free port from 0x80000000 on, or failure exactly when all ten tries are taken |
| StreamManager.ListenerPorts.AddListener | src/core/nc_stream_manager.c:57-77 | Ports stay distinct; zero asks for an ephemeral port |
| StreamManager.ListenerPorts.RemoveListener | src/core/nc_stream_manager.c:79-82 | The port is free again |
| StreamManager.ListenerPorts.ReadyForAccept | src/core/nc_stream_manager.c:129-142 | A stream goes to the one listener on its port |
| StreamManager.SegmentBudget.Alloc | src/core/nc_stream_manager.c:229-248 | The counter is the number of live segments, and the budget decides |
| StreamManager.SegmentBudget.Free | src/core/nc_stream_manager.c:250-258 | The counter follows the live segments; freeing none changes nothing |
| Spake2.NegativeScalar | src/core/nc_spake2.c:182-187 | Reducing a negative scalar modulo the group order keeps the multiple |
| Spake2.ScalarForm | src/core/nc_spake2.c:180-190 | y*T + (-w*y mod n)*M equals y*(T - w*M) in every group of order n |
| Spake2.SameElement | src/core/nc_spake2.c:176-190 | With the same password both sides arrive at the same element |
| Spake2.SameTranscript | src/core/nc_spake2.c:195-211 | Both sides then hash the same transcript |
| Spake2.TranscriptInjective | src/core/nc_spake2.c:229-246 | Length-prefixed fields determine the transcript and the other way round, whatever their number |
| Spake2.TranscriptBindsFields | src/core/nc_spake2.c:201-209 | Equal transcripts mean equal fingerprints, messages, shared element and password scalar |
| Spake2.HashedBytes | src/core/nc_spake2.c:195-269 | The hashed bytes written out: fingerprints of client and device, both messages, shared element and password scalar, each behind its length in four bytes |
| Spake2.MpiIsShortest | src/core/nc_spake2.c:258-269 | A number is hashed without leading zero bytes |
| Spake2.CalculateKey | src/core/nc_spake2.c:132-227 | S, the shared element and the hashed transcript; it fails exactly when a field does not fit the 256 byte buffer |
| Spake2.HashAll | src/core/nc_spake2.c:195-211 | The six fields are hashed in order, or a field does not fit its buffer |
| Spake2.Digest.HashLength | src/core/nc_spake2.c:229-238 | Four bytes, the highest first |
| Spake2.Digest.HashData | src/core/nc_spake2.c:240-246 | A field behind its length |
| Spake2.Digest.HashWritten | src/core/nc_spake2.c:248-269 | An element or number is hashed behind its length exactly when it fits the buffer |
| Packet.RoundTrip | src/core/nc_packet.c:8-114 | Reading what was written gives the value modulo 2^62 and the written length, whatever follows |
| Packet.Shortest | src/core/nc_packet.c:62-114 | No form that decodes to a value is shorter than the written one |
| Packet.VarUintWriteForward | src/core/nc_packet.c:62-114 | The encoding of section 16 of RFC 9000 is put in place and nothing else is touched |
| Packet.VarUintRead | src/core/nc_packet.c:8-60 | The value and length that section 16 of RFC 9000 gives, or failure when bytes are missing |

## Left out

- The JSON item flags for references and constant keys, raw items, `cJSON_Minify`, comparison and the tree editing functions: not used by saving and loading.
- Missing (NULL) strings and keys in JSON trees, decimal points of other locales, and overflow of `size_t` in length sums.
- JsonParser.ParseBuffer.ParseNumber: the integer copy `valueint` that the code keeps beside a number is not modelled.
- JsonParser.ParseWithOpts: which position of the text a failed parse reports is not modelled.
- JsonShape.StringShape: what a string with escapes outside section 7 of RFC 8259 is read as is said by the grammar of the model only.
- JsonRoundTrip.PrintedMeans: number text is taken to be exactly recoverable; how a double is formatted is not modelled.
- JsonPrinter.PrintBuffer.PrintNumber: the choice between 15 and 17 digits is part of the number library of the model.
- The mbedTLS, DTLS and CoAP modules, `nabto_stream` and STUN: contracts or events of the platform. A DTLS session that ends without reporting it is outside the contract.
- CBOR encoding and decoding in attach-start, token upload and rendezvous: an answer is a status.
- nc_attacher_deinit, the state listener for tests, the initial packet fan-out to several endpoints and the data path of the attacher's DTLS session.
- 64-bit wrap-around of the token version and of packet sequence numbers, and 8-bit wrap-around of the redirect counter, which stays below six.
- KeepAlive.Replay: settings are fixed within a run and the retry interval is not zero; `nc_keep_alive_reset` is not modelled.
- KeepAlive.KeepAliveContext.SetSettings: nothing is said about n after a division by a retry interval of zero.
- DnsMerge.CollectEndpoints: what is written behind an array without room for all addresses is not modelled; DnsMerge.ResolveEndpoints shows that there is room.
- nabto_device_future_wait and timed_wait: their results depend on how the condition variable wakes up.
- Listeners.RunIsLawful: runs that report OK as an error are outside the contract of the callers, see Listeners.ReportEndsIff; callbacks that call back into the listener are not modelled.
- The attribute list of an authorization request.
- ClientConnection.Connection.HandlePacket: what happens to a datagram shorter than a connection id is undefined in the code, which takes 16 off its length without a test; the method says exactly when that is.
- ConnectionTable.Dispatch.HandlePacket: works on the receive memory, which always holds more than 16 bytes, so short datagrams are compared with what was left there.
- ConnectionTable.Dispatch.CloseConnection: closing the whole table, and the callback when its last connection has closed, are left out.
- StreamManager.StreamTable.HandlePacket: the flag values of the stream protocol are not part of this model; the value of SYN and the test for RST are parameters of the table.
- Spake2.CalculateKey: failures of library calls and the random choice of secrets; what the digest holds after a failure.
- Device start-up, platform integration, logging, applications and examples other than saving and loading a configuration.
