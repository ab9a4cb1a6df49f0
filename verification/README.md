# Verified model of the HS financial services

The repository holds a TCP server for a small framed request/response protocol, a load generator
with any number of simulated clients, and a Windows dialog client. This project models their
logic in Dafny and proves what their parts promise together.

| file | models |
|---|---|
| `Protocol.dfy`, `Frames.dfy` | headers and messages, both header codecs, streams of frames |
| `Router.dfy` | handler table and dispatch |
| `Session.dfy`, `SessionObject.dfy` | the server's connection: a machine with one step per completion handler, and the class that performs its steps |
| `Client.dfy`, `ClientObject.dfy` | the load generator's connection, in the same two forms |
| `System.dfy`, `EndToEnd.dfy`, `Shutdown.dfy` | any number of clients and sessions joined by byte queues, and how the load test ends |
| `Accept.dfy` | the accept handler, connection counters and session ids |
| `Lcg.dfy`, `LoadMix.dfy`, `Requests.dfy` | the generator, the weighted choice, the requests made from them |
| `JsonText.dfy`, `Documents.dfy`, `Scanning.dfy`, `Decimal.dfy`, `Sizes.dfy` | JSON printed by concatenation and read by searching |
| `Trade.dfy`, `Sql.dfy`, `PriceHistory.dfy`, `Positions.dfy`, `Services.dfy` | the services and the shipped handler table |
| `LoadTest.dfy`, `Progress.dfy` | the load generator against the shipped services: what clients are told, and that they get on |
| `Metrics.dfy` | counters, samples, the report |
| `Transfer.dfy`, `Dialog.dfy` | the dialog's socket loops, and who owns its socket |
| `DialogServer.dfy` | the dialog against the server, on hosts of either byte order |
| `Sequences.dfy` | two facts about concatenation |

How it is modelled:

- An asynchronous operation moves its bytes in pieces of any size, then its handler runs; or it
  fails at any time. Where a handler touches something shared, each access is a step of its own,
  so runs interleave handlers of all threads in every order.
- Each direction of a TCP connection is a queue of bytes.
- The byte order of the host is a parameter. `encode_header` and `decode_header` convert to
  network order and then take the bytes most significant first, so on a little-endian host the
  wire is little-endian, although the header's comments and the documentation call it big-endian.
  The model follows the code: both ends of the load test agree on every host, and the dialog,
  which always writes big-endian, agrees with the server only where `Protocol.CodecsAgree` says, so that
  a server on a little-endian host never answers it (`DialogServer.NeverAnswered`).
- Handlers see their payload, the process-wide order counter and the clock. The price service's
  clock, dates and random walk are a parameter giving the printed fields of each candle.
- A success of the load generator is a well-framed response; the type of the response is not
  looked at. A sell order is answered with type 0x8003, which has no name in the protocol.
- Where a method changes state, its contract equates the new state with a function, and the
  properties are proved of that function.

## Model

| member | source | states |
|---|---|---|
| Protocol.EncodeHeader | server/include/protocol.hpp:88-99 | the eight bytes stored are, for the host's byte order, the digits of length and type, the flags and a zero; nothing else in the buffer changes |
| Protocol.DecodeHeaderMeaning | server/include/protocol.hpp:102-118 | the shift-and-swap decoder reads the header the bytes stand for in the host's order, and refuses exactly lengths above 16 MiB |
| Protocol.HeaderRoundTrip | server/include/protocol.hpp:88-118 | on every host decoding an encoded header gives it back with `reserved` zeroed if its length is within the limit, and refuses it otherwise |
| Protocol.UiEncodeHeader | ui_client/src/MainDlg.cpp:44-57 | the dialog stores length and type big-endian whatever its host |
| Protocol.UiRoundTrip | ui_client/src/MainDlg.cpp:44-70 | the dialog's decoder inverts its encoder for every length and type |
| Protocol.CodecsAgree | server/include/protocol.hpp:88-99 | server and dialog encode a header alike exactly when the host is big-endian or length and type are both byte palindromes |
| Protocol.UiHeaderOnServer | server/include/protocol.hpp:102-118 | what the server takes any dialog header for, on either byte order |
| Protocol.ServerHeaderInUi | ui_client/src/MainDlg.cpp:60-70 | what the dialog takes any server header for, on either byte order |
| Protocol.UiRequestRefused | ui_client/src/MainDlg.cpp:496-508 | a little-endian server refuses a dialog request exactly when the low byte of its length is above one, or is one with another byte set; so all of 2 to 255 bytes |
| Frames.PrintMessage | server/src/session.cpp:105-112 | the write buffer holds exactly the printed header followed by the payload |
| Frames.ParseAppend | server/src/session.cpp:44-126 | parsing a stream can be split anywhere: frames of the first part, then those of its remainder with the second part |
| Frames.ParseSerialized | server/src/session.cpp:105-126 | printed messages within the limit are parsed back, whatever follows them |
| Frames.ParsePrefix | load_generator/src/client_session.cpp:136-175 | any prefix of printed messages parses to a prefix of them, with no deliverability assumed |
| Frames.ReadBackIff | server/include/protocol.hpp:102-137 | a stream of made messages is read back whole exactly when every payload is within 16 MiB |
| Frames.OversizedNotRead | server/include/protocol.hpp:129-136 | a message over the limit is never read back, not even when its length field has wrapped |
| Router.ResponseKindTells | server/include/service_router.hpp:41-57 | every response carries the high bit; kError tells that no handler replied, but for the two request types whose own response type it is; any other type tells the request's |
| Router.ServiceRouter.RegisterHandler | server/include/service_router.hpp:32-37 | adds the handler if the type has none and otherwise changes nothing and reports it |
| SessionMachine.StepKeeps | server/src/session.cpp:27-136 | every handler, byte movement, failure, stop and destruction, with or without an operation outstanding, keeps the session invariant |
| SessionMachine.SessionSafety | server/src/session.cpp:44-136 | in every reachable state the requests dispatched are the first frames of the input, at most one frame behind, what was sent is a prefix of the printed replies, an open session has an operation outstanding, and on_close has run once if closed, never otherwise; stopping, failing or destroying the session at any point leaves exactly one call |
| SessionMachine.ClosedMovesNothing | server/src/session.cpp:129-136 | a closed session stays closed and reads and sends nothing more |
| SessionMachine.SessionRefinesStream | server/src/session.cpp:44-126 | a session that has done all it can with its input has dispatched exactly the greedily parsed frames, up to a refused header or truncated tail, and sent exactly their printed replies; it is closed exactly if the input has a refused header |
| SessionMachine.FragmentationIrrelevant | server/src/session.cpp:44-102 | two runs over the same input, split in any two ways, send the same bytes |
| SessionMachine.UsefulStepNearer | server/src/session.cpp:44-126 | every useful step takes more of the input, or lowers the operation's rank, or leaves less to send |
| SessionMachine.InputIsFinished | server/src/session.cpp:44-126 | for every input, every undisturbed run on it can go on until nothing is left to do |
| SessionMachine.InputIsAnswered | server/src/session.cpp:44-126 | so for every input there is a run that dispatches exactly its frames and sends exactly their replies |
| SessionObject.Session.constructor | server/src/session.cpp:17-25 | a new session is open, with empty history |
| SessionObject.Session.Start | server/src/session.cpp:32-34 | starts reading the first header |
| SessionObject.Session.Receive | server/src/session.cpp:46-48 | a partial read stores the chunk behind what the buffer already holds and nothing else |
| SessionObject.Session.Transmit | server/src/session.cpp:115-117 | a partial write hands over the next bytes of the buffer |
| SessionObject.Session.OnHeaderRead | server/src/session.cpp:49-70 | the header handler performs the machine's step in all its branches: error, refused header, empty payload, body to come |
| SessionObject.Session.DoReadBody | server/src/session.cpp:74-102 | dispatches at once for an empty payload, else starts the body read |
| SessionObject.Session.DispatchAndWrite | server/src/session.cpp:77-84 | dispatches header and body as one request and starts writing the reply |
| SessionObject.Session.DoWrite | server/src/session.cpp:105-126 | the new write buffer is the printed response |
| SessionObject.Session.OnBodyRead | server/src/session.cpp:94-101 | the body handler performs the machine's step |
| SessionObject.Session.OnWritten | server/src/session.cpp:118-125 | after a write the next header read begins, after an error the session closes |
| SessionObject.Session.Close | server/src/session.cpp:129-136 | only the first call closes and calls back |
| SessionObject.Session.Stop | server/src/session.cpp:36-41 | posts a close and changes nothing yet |
| SessionObject.Session.RunPosted | server/src/session.cpp:38-40 | the posted close leaves the session closed, calling back only if it was open |
| SessionObject.Session.Destroy | server/src/session.cpp:27-29 | the destructor drops what is outstanding or posted and closes, calling back only if the session was open |
| ClientMachine.StepKeeps | load_generator/src/client_session.cpp:43-183 | every step of a client keeps its stream position and its books: at most one error, one finish, each request answered, outstanding or given up |
| ClientMachine.ResponsesRead | load_generator/src/client_session.cpp:136-175 | the completed responses are the frames read so far, all of them unless a handler is due |
| ClientObject.ClientSession.constructor | load_generator/src/client_session.cpp:17-35 | a new client is about to resolve, its generator at 2654435761 times its number plus 1, modulo 2^64 |
| ClientObject.ClientSession.NextRand | load_generator/include/client_session.hpp:96-100 | returns and stores the generator's next state, with the coded multiplier and increment modulo 2^64 |
| ClientObject.ClientSession.NextRequest | load_generator/src/client_session.cpp:63-109 | with its running threshold, makes the message the generator's state determines and leaves the generator as many states further as that kind draws |
| ClientObject.ClientSession.DrawOrder | load_generator/src/client_session.cpp:84-88 | an order draws quantity and price in turn |
| ClientObject.ClientSession.Receive | load_generator/src/client_session.cpp:138-140 | a partial read stores the chunk in place |
| ClientObject.ClientSession.Transmit | load_generator/src/client_session.cpp:126-128 | a partial write hands over the next bytes |
| ClientObject.ClientSession.DoSendRequest | load_generator/src/client_session.cpp:112-133 | if the stop flag is set the client finishes; if not, one request more is begun, its bytes printed and being written, and the clock for its latency starts |
| ClientObject.ClientSession.GiveUp | load_generator/src/client_session.cpp:130-149 | an error is counted once and the client finishes |
| ClientObject.ClientSession.FinishClient | load_generator/src/client_session.cpp:178-183 | the client is done and the count in flight is one lower |
| ClientObject.ClientSession.Succeeded | load_generator/src/client_session.cpp:150-174 | one success, one sample with the time since the request was begun, then the next request |
| ClientObject.ClientSession.OnResolved | load_generator/src/client_session.cpp:45-50 | the resolver's handler performs the machine's steps up to the next wait and moves the shared counters accordingly |
| ClientObject.ClientSession.OnConnected | load_generator/src/client_session.cpp:51-58 | the same for the connect handler |
| ClientObject.ClientSession.OnWritten | load_generator/src/client_session.cpp:129-132 | the same for the write handler |
| ClientObject.ClientSession.OnHeaderRead | load_generator/src/client_session.cpp:141-159 | the same for the header handler: error, refused header, empty response, body to come |
| ClientObject.ClientSession.OnBodyRead | load_generator/src/client_session.cpp:168-174 | the same for the body handler |
| ClientObject.Control.StopLoad | load_generator/src/main.cpp:91-94 | the timer sets the stop flag |
| ClientObject.Control.ClientDone | load_generator/src/main.cpp:83-85 | the callback takes one off the count in flight |
| System.RunKeeps | load_generator/src/main.cpp:71-104 | over every run of any number of clients and sessions the bytes on each connection, the shared counters, the call history and the order counter stay consistent |
| EndToEnd.KthResponseAnswersKthRequest | load_generator/src/client_session.cpp:112-175 | the k-th response a client completes is dispatch of its k-th request, under any interleaving and fragmentation |
| EndToEnd.RequestsFollowGenerator | load_generator/src/client_session.cpp:63-133 | over every run the k-th request of client i is the one determined by its generator, seeded from i, after the draws of the k requests before |
| EndToEnd.BytesConserved | server/src/session.cpp:44-126 | bytes read, queued and not yet written add up to the printed messages in both directions, in every reachable state |
| EndToEnd.CountersConserved | load_generator/src/metrics_collector.cpp:13-22 | in_flight counts the unfinished clients and never underflows, no client errs or finishes twice, requests are successes plus failures after sending plus outstanding ones, and successes exceed samples by the threads between the two |
| EndToEnd.FinalReport | load_generator/src/main.cpp:102-109 | once all clients have finished, the count reported is the number of samples and of completed responses |
| EndToEnd.NoDeadlock | load_generator/src/client_session.cpp:112-175 | a client on an unbroken connection with readable replies has finished or its connection has a step to take |
| EndToEnd.ShutdownStep | load_generator/src/main.cpp:90-104 | once the stop flag is set no client begins a request, and every step, failures included, lowers the lexicographic measure of the one connection it touches |
| Shutdown.EveryStepFalls | load_generator/src/main.cpp:90-104 | after the stop flag the components of all connections' measures, added up, fall lexicographically with every effective step, and do not rise when sessions are stopped or destroyed |
| Shutdown.RunsDry | load_generator/src/main.cpp:90-104 | so in every run effective steps come to an end, and no client begins a request |
| Shutdown.ShutdownCompletes | load_generator/src/client_session.cpp:112-183 | every run in which effective steps keep coming while any is possible, whatever sessions are stopped or destroyed in between, ends with all clients finished, none having begun another request, the count in flight zero and a sample for every success |
| Shutdown.LoadTestEnds | load_generator/src/main.cpp:90-104 | from the start: in every such run in which the timer goes off, all clients finish, none beginning a request behind the timer |
| Accept.StepKeeps | server/src/server.cpp:79-111 | the counters' invariant survives every step of the accept handler and of any session |
| Accept.ConnectionsAccounted | server/src/server.cpp:79-111 | active connections are the open sessions plus the one being admitted, never negative and never above the maximum; between admissions the total, the sessions created and the ids agree; each session has called back once if closed |
| Accept.DestroyedCalledBack | server/src/session.cpp:27-29 | destroying a session at any point of any run leaves it closed with exactly one callback, its own or an earlier one, takes it off the active connections if it was open, and nothing later calls back again |
| Accept.RefusedIff | server/src/server.cpp:85-106 | a connection is refused exactly when the maximum number of sessions is open |
| Accept.EndsOnlyClosed | server/src/server.cpp:79-111 | over every run the acceptor is left unarmed only by a handler that found it closed |
| Accept.ArmedAgain | server/src/server.cpp:79-111 | from every reachable state without that, the handler's next four steps, however sessions interleaved before, arm the acceptor again |
| Accept.ConnectionHandled | server/src/server.cpp:79-111 | a whole handler on an open acceptor leaves it armed, creates one started session exactly if there was no error and room, and counts a refusal exactly if there was no room |
| Accept.AllAdmitted | server/src/server.cpp:79-111 | any number of sessions up to the maximum can be open at once |
| Accept.Server.constructor | server/src/server.cpp:17-37 | counters start at zero, ids at one |
| Accept.Server.OnAccept | server/src/server.cpp:81-110 | the accept handler, all its steps in a row: listening again exactly if the acceptor is open, with a new started session exactly if the connection is admitted |
| Accept.Server.OnClose | server/src/server.cpp:97-99 | the callback takes one off the active connections, whichever step closes the session |
| Lcg.FullPeriod | load_generator/include/client_session.hpp:96-100 | for every k up to 64 the low k bits return after n draws exactly when 2^k divides n, from every seed; the whole state has period 2^64 |
| Lcg.EveryStateReached | load_generator/include/client_session.hpp:96-100 | every state is reached from every seed |
| Lcg.ClosedForm | load_generator/include/client_session.hpp:96-100 | n draws multiply the state by the n-th power of the coded multiplier and add the geometric sum of the coded increment, modulo 2^64 |
| Lcg.ClientsDiffer | load_generator/src/client_session.cpp:34 | clients with different numbers have different seeds and still differ after any equal number of draws |
| LoadMix.SelectedIff | load_generator/src/client_session.cpp:71-102 | for any weights, the picks that select a kind are one interval, given by the largest threshold so far |
| LoadMix.ProportionalIff | load_generator/src/client_session.cpp:64-102 | with a positive sum, each kind has as many picks as its weight exactly when no weight is negative |
| LoadMix.NothingToWeigh | load_generator/src/client_session.cpp:64-71 | without a positive sum every draw selects the same kind, price history if no weight is positive |
| LoadMix.PickedExactly | load_generator/src/client_session.cpp:71-102 | among the first n numbers a kind is picked exactly its share of each full round plus what the last round has passed |
| LoadMix.PeriodExactly | load_generator/src/client_session.cpp:63-109 | over a full period of 2^64 draws, from any seed, a kind is picked between floor(2^64/total) and one more times its share, and exactly how often |
| Requests.RequestIsSendable | load_generator/src/client_session.cpp:63-109 | every request made is short, of eight-bit text and of a known type, so the protocol delivers it unchanged; none has more than 100 bytes |
| Requests.RequestUnderstood | load_generator/src/client_session.cpp:73-108 | the services read from every request exactly the statement, order, account or days drawn, never a default |
| Requests.PriceShows | load_generator/src/client_session.cpp:86-88 | the price text is 100 + cents / 100 to the cent, without leading zeros, trailing zeros or a bare point |
| Requests.DrawsCover | load_generator/src/client_session.cpp:73-108 | each of the five symbols, quantities 10 to 500, prices 100.00 to 299.99 and 7 to 30 days can be drawn, and nothing else |
| JsonText.ExtractStringReads | server/src/services/trade_service.cpp:17-25 | extract_string is the text behind the first occurrence of the key, up to the next quote |
| JsonText.ExtractNumber | server/src/services/trade_service.cpp:27-37 | the loops take the longest number text behind the key, or "0" without the key |
| JsonText.ExtractField | ui_client/src/MainDlg.cpp:88-107 | a string value if there is one, else a bare one up to comma or brace, else nothing |
| JsonText.StringIs | server/src/services/trade_service.cpp:17-25 | by position: a string goes from behind the first needle up to the next quote, and is empty without one |
| JsonText.NumberIs | server/src/services/trade_service.cpp:27-37 | by position: behind the first needle and blanks and tabs, the longest stretch of digits, points and minus signs |
| JsonText.BareFieldIs | ui_client/src/MainDlg.cpp:88-107 | by position: without a string, behind the first needle and blanks and tabs, up to the next comma or brace |
| Documents.FirstOccurrence | server/src/services/trade_service.cpp:17-37 | in a document of quote-free values the first occurrence of a needle is the first item with the key, never inside a value or across two |
| Documents.FieldReads | ui_client/src/MainDlg.cpp:88-107 | the dialog reads the first string item with the key, else the first bare one |
| Documents.CountOccurrences | ui_client/src/MainDlg.cpp:679-684 | the counting loop, which goes on one character behind each hit, counts the occurrences |
| Documents.CountsKeys | ui_client/src/MainDlg.cpp:930-935 | in a document the number of occurrences is the number of items with the key |
| Decimal.PrintInjective | server/src/services/trade_service.cpp:53 | different numbers are printed differently |
| Trade.TradeService.BuildOrderAck | server/src/services/trade_service.cpp:39-62 | answers with the acknowledgement of the request under the next order number, and advances the 64-bit counter |
| Trade.TradeService.PrintAck | server/src/services/trade_service.cpp:51-61 | the text written to the stream is the acknowledgement's document, with the number given |
| Trade.OrderReads | server/src/services/trade_service.cpp:40-47 | from a printed order with quote-free and number texts the service takes exactly what was ordered, with the coded defaults |
| Trade.AckReadsBack | ui_client/src/MainDlg.cpp:735-740 | whatever the request, the dialog reads back every field the service took from it, and an order id of ORD- and the digits of the number issued |
| Trade.OrderRoundTrip | ui_client/src/MainDlg.cpp:703-740 | order, acknowledgement and reading give back symbol, account, quantity, price and side |
| Trade.SymbolSurvivesIff | server/src/services/trade_service.cpp:40-45 | for any texts at all the symbol survives exactly when it is quote-free and not empty |
| Trade.OrderIdsDiffer | server/src/services/trade_service.cpp:49-53 | acknowledgements of different numbers show different order ids |
| Sql.JsonEscape | server/src/services/sql_service.cpp:18-32 | the loop escapes every char of the text, in order |
| Sql.UnescapeEscape | server/src/services/sql_service.cpp:18-32 | escaping has a left inverse on every text, and at most doubles its length |
| Sql.QuotesEscaped | server/src/services/sql_service.cpp:18-32 | every quote in an escaped text stands behind an odd run of backslashes |
| Sql.EscapeUtf8 | server/src/services/sql_service.cpp:18-32 | the escaped bytes are UTF-8 (section 4 of RFC 3629) exactly when the input's are |
| Sql.LegalIff | server/src/services/sql_service.cpp:18-32 | the escaped bytes are legal JSON string content (section 7 of RFC 8259) exactly when the input is UTF-8 with no control characters but newline, return and tab |
| Sql.HandleSqlQuery | server/src/services/sql_service.cpp:48-63 | the text written is the result's document, or the error's without a statement |
| Sql.ResultReadsBack | ui_client/src/MainDlg.cpp:676-684 | whatever the request, the dialog counts three rows and recovers the statement, or counts none |
| Sql.RowsReadBack | server/src/services/sql_service.cpp:48-63 | a statement is answered with the three rows, each symbol with its own price and volume, and none affected; a request without one with the error named |
| Sql.QueryRoundTrip | ui_client/src/MainDlg.cpp:653-684 | a quote-free statement comes back whole |
| PriceHistory.ExtractInt | server/src/services/price_history_service.cpp:25-39 | the loop yields the value of the digits behind the key, or the default if there are none |
| PriceHistory.IntIs | server/src/services/price_history_service.cpp:25-39 | by position: behind the first needle and spaces, the value of the longest stretch of digits, or the default |
| PriceHistory.HandleGetPriceHistory | server/src/services/price_history_service.cpp:57-97 | the response is the history of the symbol for the number of days settled on |
| PriceHistory.PrintHistory | server/src/services/price_history_service.cpp:71-96 | the loop writes the document of the days' candles from days - 1 days ago down to today's |
| Scanning.NextEntry | ui_client/src/MainDlg.cpp:941-971 | one round of the scanning loops takes the next entry of the text and goes on behind it, or finds none |
| Scanning.EntriesFound | ui_client/src/MainDlg.cpp:937-972 | in a document with a list, scanning yields the texts of all its entries, in order, and nothing else |
| PriceHistory.HistoryText | server/src/services/price_history_service.cpp:76-95 | candles are separated by single commas, with none before the first or behind the last |
| PriceHistory.CountsDays | ui_client/src/MainDlg.cpp:930-935 | whatever the request, the dialog counts as many candles as days the service settled on |
| PriceHistory.DaysRoundTrip | server/src/services/price_history_service.cpp:57-61 | for every int asked for the dialog counts that many candles if it is in 1..365, and 30 otherwise |
| PriceHistory.ScanCandles | ui_client/src/MainDlg.cpp:937-972 | the loop reads the first five entries found, or all if fewer |
| PriceHistory.EntryReadsBack | ui_client/src/MainDlg.cpp:946-953 | all six fields of an entry are read back |
| PriceHistory.OldestFirst | server/src/services/price_history_service.cpp:71-96 | for every request that settles on n days a scan finds n entries, and the k-th reads as the candle of n - 1 - k days ago |
| PriceHistory.SymbolReadsBack | server/src/services/price_history_service.cpp:58-74 | whatever the request, the symbol asked for, or AAPL without one, is read back from the response |
| PriceHistory.ShowsFirstFive | ui_client/src/MainDlg.cpp:937-972 | the dialog shows the oldest five of the n days, or all if fewer: the k-th shown is the candle of n - 1 - k days ago, unchanged |
| Services.RegisterServices | server/src/main.cpp:25-46 | on a new router all six registrations succeed and give the shipped table |
| Positions.ReadPositions | ui_client/src/MainDlg.cpp:856-882 | the loop reads every entry found, and the cash |
| Positions.ShowsPositions | ui_client/src/MainDlg.cpp:856-880 | whatever the request, the dialog shows the three positions in order, each with all five fields, and the cash |
| Positions.CashReadsBack | ui_client/src/MainDlg.cpp:882 | and the cash behind them |
| Positions.AccountReadsBack | server/src/services/position_service.cpp:26-42 | the account asked for, or UNKNOWN without one, is in the answer |
| Services.AnswerIsShort | server/src/main.cpp:25-46 | no service answers a request of n chars with more than 24 n + 1,000,000, all of eight bits |
| Services.Served | server/include/service_router.hpp:41-57 | a known request is answered with its service's text unchanged in a frame whose length is right, readable by the client for requests up to 600,000 bytes |
| Services.Unserved | server/include/service_router.hpp:43-46 | any other request gets a short error |
| Services.PingEchoed | server/src/main.cpp:43-46 | a ping comes back with its own payload, or with sequence number 0 if it had none |
| Services.ErrorsTold | server/include/service_router.hpp:41-57 | with any table, an unknown type is answered with code 404, and a handler that throws with code 500 and what it threw |
| LoadTest.RepliesFit | load_generator/src/client_session.cpp:141-158 | the shipped services give the load generator's clients only replies that fit the length field and the client's limit |
| LoadTest.ResponsesAnswerRequests | load_generator/src/client_session.cpp:112-175 | with the shipped services, every completed response answers its request, with no condition on the replies |
| LoadTest.LoadResponseSays | load_generator/src/client_session.cpp:63-175 | over every run the k-th response of a client says what its generator drew for the k-th request: the statement and the three rows, the filled order with its number, the account with its three holdings in order and the cash, or the symbol with one candle per day, oldest first, each as the market has it |
| LoadTest.LoadNeverStuck | load_generator/src/client_session.cpp:112-175 | a load-generator client on an unbroken connection is never stuck |
| LoadTest.OrdersNumbered | server/src/services/trade_service.cpp:15-49 | over any concurrent run the orders are numbered 1, 2, 3 and so on in the order served, modulo 2^64, and no two alike within the counter's 64 bits |
| LoadTest.OrderIdTold | load_generator/src/client_session.cpp:112-175 | over any run the id in an order's response is ORD- and the digits of the number of orders served by then on all connections, its own included, modulo 2^64 |
| LoadTest.OrderIdsToldDiffer | server/src/services/trade_service.cpp:49-53 | over any run within the counter's 64 bits no two order responses, of one client or of two, carry the same id |
| Progress.FinishesOnlyWhenTold | load_generator/src/client_session.cpp:112-183 | over every run the stop flag is set exactly if the timer has gone off, and until then no client finishes that has not counted an error |
| Progress.ConnectedFirst | load_generator/src/client_session.cpp:43-58 | over every run no client begins a request before resolving and connecting have succeeded, nor completes a response without a write and a read more |
| Progress.NothingFails | load_generator/src/client_session.cpp:141-174 | in an undisturbed run with the shipped services no client errs or finishes and no session closes |
| Progress.ClientIsAnswered | load_generator/src/client_session.cpp:112-175 | from every undisturbed run, for every client and every n, the run can go on undisturbed until that client has completed n responses |
| Progress.LoadGoesOn | load_generator/src/client_session.cpp:112-175 | and until all clients have |
| Progress.DrawsCounted | load_generator/src/client_session.cpp:63-109 | over every run a client's generator stands as many states behind its seed as its requests take: two draws for a statement or a position, three for a history, four for an order |
| Metrics.Sort | load_generator/src/metrics_collector.cpp:47 | the array in place becomes the sorted sequence of its contents |
| Metrics.SortedOfSorts | load_generator/src/metrics_collector.cpp:47 | that sequence is an ordered permutation |
| Metrics.SortedUnique | load_generator/src/metrics_collector.cpp:47 | there is only one, so the report does not depend on how it was sorted |
| Metrics.MetricsCollector.CountSuccess | load_generator/src/metrics_collector.cpp:14 | first half of record_success |
| Metrics.MetricsCollector.StoreSample | load_generator/src/metrics_collector.cpp:15-17 | second half of record_success |
| Metrics.MetricsCollector.RecordError | load_generator/src/metrics_collector.cpp:20-22 | counts one error |
| Metrics.MetricsCollector.Compute | load_generator/src/metrics_collector.cpp:34-66 | the figures computed are those of the report of the collected samples, zeros if there are none |
| Metrics.PercentileRanks | load_generator/src/metrics_collector.cpp:56-63 | a percentile, with the rank idx for which idx <= p (n-1) < idx + 1, is a sample with at least idx + 1 samples not above it and at least n - idx not below |
| Metrics.PercentileUnique | load_generator/src/metrics_collector.cpp:56-63 | that describes one value only |
| Metrics.ReportInOrder | load_generator/src/metrics_collector.cpp:49-63 | minimum, p50, p90, p99 and maximum ascend, minimum and maximum bound every sample and the mean |
| Metrics.ReportFigures | load_generator/src/metrics_collector.cpp:34-66 | each figure by itself: the counts, throughput and mean by what they multiply out to, and the 50th, 90th and 99th percentile; zeros without samples |
| Transfer.Socket.SendAll | ui_client/src/MainDlg.cpp:468-479 | sends exactly the bytes it claims to, in order, for any pattern of short sends, and terminates |
| Transfer.Socket.RecvAll | ui_client/src/MainDlg.cpp:482-493 | stores exactly the next bytes of the stream, for any pattern of short receives, and terminates |
| Transfer.Socket.SendMsg | ui_client/src/MainDlg.cpp:496-508 | puts a prefix of the framed message on the wire, the whole of it exactly when it reports success |
| Transfer.Socket.RecvMsg | ui_client/src/MainDlg.cpp:511-527 | returns what the framed receive of the stream gives, and fails otherwise |
| Transfer.SentWhole | ui_client/src/MainDlg.cpp:470-477 | if every call moves something the whole message is sent |
| Transfer.ReceivedExactly | ui_client/src/MainDlg.cpp:511-527 | with a message next in the stream, however much of it has arrived, what is received is that message and nothing behind it; too long a message is refused after its header |
| Transfer.StaysAligned | ui_client/src/MainDlg.cpp:511-527 | successive messages stay aligned: from any part of the stream those received are a prefix of those sent, and what is left is what was sent behind them |
| Transfer.AllReceived | ui_client/src/MainDlg.cpp:511-527 | if every call moves something, every message of the stream within the limit is received |
| DialogServer.CommandsAnswered | ui_client/src/MainDlg.cpp:496-527 | with a big-endian server, in every reachable state, failures and stops included, the commands dispatched are the dialog's first ones and what it has received is a prefix of their answers |
| DialogServer.CommandsServed | server/src/session.cpp:44-126 | a big-endian server with the shipped services that goes undisturbed answers every command, in order, with the response type and the text of the service asked |
| DialogServer.CommandRefused | server/src/session.cpp:53-60 | a little-endian server dispatches and sends nothing in any run that begins with a command of 2 to 255 bytes, or any other length it refuses, and closes if left undisturbed |
| DialogServer.NeverAnswered | ui_client/src/MainDlg.cpp:511-527 | in no run of a little-endian session, whatever the command's length and whatever follows it, does the dialog receive an answer, if no service has the swapped type |
| DialogServer.AnsweredIff | ui_client/src/MainDlg.cpp:496-527 | with the shipped services a finished exchange of one command gets the dialog an answer exactly if the server's host is big-endian |
| Dialog.StepKeeps | ui_client/src/MainDlg.cpp:222-362 | clicks, the worker's steps and its message keep the ownership invariant: one worker or message at most, all socket buttons off meanwhile, buttons and m_connected as the socket stands, no socket overwritten |
| Dialog.WorkerOwnsSocket | ui_client/src/MainDlg.cpp:279-311 | while a worker is busy no click does anything to the socket, and a talking worker's socket is live |
| Dialog.NoSocketLost | ui_client/src/MainDlg.cpp:394-436 | new sockets are made only when none is open, and all but the connected one are closed again |
| Dialog.DialsInTurn | ui_client/src/MainDlg.cpp:394-436 | the addresses are tried in turn up to the first that answers and no further, every socket opened before it closed |
| Dialog.ClicksTakeEffect | ui_client/src/MainDlg.cpp:222-311 | with no worker busy, Connect makes a connection exactly if an address answers, Disconnect ends it, and Run hands the socket to a worker |
| Dialog.ClicksWithoutEffect | ui_client/src/MainDlg.cpp:222-311 | in every reachable state the clicks without a host, a connection or a command, or with a connection already made, change nothing |
| Dialog.MainDlg.constructor | ui_client/src/MainDlg.cpp:186-189 | only Connect is enabled at first |
| Dialog.MainDlg.OnBnClickedConnect | ui_client/src/MainDlg.cpp:222-256 | performs the machine's step |
| Dialog.MainDlg.DoConnect | ui_client/src/MainDlg.cpp:394-436 | keeps the socket of the first address that answers and closes every other one it opened |
| Dialog.MainDlg.DoDisconnect | ui_client/src/MainDlg.cpp:439-447 | closes the socket if there is one |
| Dialog.MainDlg.OnBnClickedDisconnect | ui_client/src/MainDlg.cpp:259-268 | performs the machine's step |
| Dialog.MainDlg.OnBnClickedRun | ui_client/src/MainDlg.cpp:271-311 | performs the machine's step |
| Dialog.MainDlg.OnWorkerDone | ui_client/src/MainDlg.cpp:347-362 | gives the buttons back as the connection stands |
| Dialog.CommandEnds | ui_client/src/MainDlg.cpp:288-310 | the worker's steps end with one message pending, every socket closed after a logout and the connection untouched otherwise, and the message gives the buttons back as the connection stands |
| Dialog.MainDlg.RunWorker | ui_client/src/MainDlg.cpp:572-599 | the worker's thread performs its steps of the machine, from launch to message |

## Left out

- Boost.Asio, Winsock, name resolution, socket options, signals and threads: replaced by completion events, byte queues and atomic steps; an exception from a socket option or an allocation ends the run.
- Memory ordering: atomics are steps of one sequential order, and the session's `closed_` flag is one too, although `stop` and the destructor may run on other threads.
- `Server::on_request` and the request total: nothing calls it.
- Closing the dialog (`OnCancel`): it closes the socket while a worker may still use it.
- Window controls, logging, timestamps and text conversion: no state that matters here.
- `sin`, `cos` and the calendar in the price history: candle fields are any quote-free texts without the separators the readers stop at; the dates also without closing braces.
- Metrics.ReportInOrder: states the figures over reals, so it does not model the rounding of doubles.
- PriceHistory.HandleGetPriceHistory: does not model the clock, the dates and the walk, which are a parameter.
- Metrics.MetricsCollector.Compute: does not model the rounding of doubles.
- Metrics.PercentileRanks: does not model the rounding of the rank's product of doubles.
- PriceHistory.ExtractInt: does not model overflow of an int by a very long run of digits.
- LoadMix.SelectedIff: does not model overflow of an int by the sum of the weights.
- Transfer.Socket.SendMsg: does not model payloads of 2 GiB and more, whose remaining size no longer fits the int handed to the socket.
- DialogServer.CommandsServed: commands of at most 600,000 bytes, as the answer to a longer one may exceed the dialog's 16 MiB; `DialogServer.CommandsAnswered` has no such bound.
- LoadTest.LoadResponseSays: assumes the market's fields have at most 100 chars each, which the printed numbers and dates have.
- Command lines, the report's layout and the build.
