# Turtle server: a model in Dafny

This project models the core of the Turtle C++ web server and of the lint script it ships with, and proves what those
pieces are for. It has five parts.

* **HTTP pipeline.** `Strings`, `Buffers`, `Requests`, `RequestLaws`, `Responses`, `Delivery`, `Server`, `ServerLaws`,
  `Answers`, `Connections`, `ServerLoop`, `ServerRuns`. Text helpers, the byte buffer, request and header parsing, response printing, the
  socket loops and the keep-alive serving loop. The parsers, loops and objects are methods and classes, as in the
  source, each proved against a function on values; the laws are about those functions. The printed forms are those of
  sections 2.1, 3, 5 and 6.3 of RFC 9112; the server covers a subset of it and, unlike its section 9.3, closes by
  default.
* **LRU cache.** `Lru` says what the cache means, as a list of entries from least to most recently used with a byte
  budget, and with `LruInclusion` proves laws over whole runs. `LruCache` is the doubly linked list between two sentinels, the map and the
  occupancy counter, with the subtraction and addition of `size_t` written out; it refines `Lru`.
* **Connection lifetimes.** `Timers` and `Loopers` are the timer and the looper's tables as classes. `Lifetimes` is the
  protocol as a machine whose steps lie between lock acquisitions, with a clock, descriptor reuse and pruned timers
  that have not fired yet; `LifetimeLaws` is about its whole runs with refreshes that overwrite, `Rounds` about the
  rounds of the loop in any run. `AsWritten`,
  `AsWrittenLaws` and `AsWrittenRuns` are about its runs with refreshes as the source has them. `Locks` has the mutexes
  and the deadlock freedom.
* **Queues.** `ThreadPools` and `Loggers`, each as a machine of lock-granular steps.
* **Lint script.** `Balanced` is a grammar of bracket blocks with two scanners; `Brackets` has the three matchers of
  cpplint with all their branches and `BracketLaws` relates the two. `AngleLaws` and `MirrorLaws` say what the matchers
  make of angle brackets. `Preprocessor` is the nesting stack over
  conditional directives.

`dafny verify dfyconfig.toml` checks everything.

## What is assumed

* Files and CGI output are fixed (`World`): a path names the same bytes throughout.
* The methods of the cache are atomic. In the source `TryLoad` relinks nodes under a shared lock and `Clear` takes no
  lock (src/core/cache.cpp:59-66 and 94-99).
* The cache's clock does not run backwards. `LruCache.Cache` needs this for the order of its time stamps alone.
* `recv` follows a script that ends with a call that ends the drain. For each Send, `send` follows a script of calls that
  take part of what they are offered, ask for a retry, or fail for good; when it is used up, the socket takes the rest.
* The system hands out only descriptors that are not in use, and a poll reports live connections, each once.
* Times do not overflow 64 bits.

## Where the code does less than it says

Each of these is a lemma about the code as it is, with the exact condition where there is one.

* `RefreshConnection` files the refreshed timer with `map::insert`, which leaves the old entry in place. The
  correspondence of connections and timers then breaks at the first refresh and at nothing else
  (`LifetimeLaws.AsWrittenExactly`). What is true instead, in every run without colliding expiries, is in
  `AsWrittenLaws`: the timer of a connection moves at its first refresh in a later millisecond than its acceptance and
  never again, so that a client can be expelled while it is active; a connection that leaves after such a refresh leaves
  its timer behind, and an orphan like that expels whoever has the descriptor when it fires. A connection expelled in
  that way leaves an orphan even without a refresh if its own timer had been pruned together with the orphan.
  `AsWrittenRuns` has a run for each of the three. The laws of `LifetimeLaws` are for runs whose refreshes overwrite, or
  that have none.
* The timer queue is keyed by expiry alone, so a timer that expires in the same millisecond as a queued one is silently
  dropped (`LifetimeLaws.AddTimerExactly`, `LifetimeLaws.RefreshExactly`). A later lookup under that expiry matches the
  timer of the other connection, and a deletion removes it (`AsWrittenRuns.CollisionReachable`).
* Requests that arrive together with the end of the stream are not answered (`Server.EndOfStreamExactly`).
* A HEAD for a CGI program is answered with a body, which a client cannot tell from the next head
  (`ServerLaws.ClientRecoversAnswers`).
* Joining and splitting are inverse only for delimiters without a border (`Strings.SplitJoinExactly`), and a header value
  that ends in a colon loses it (`Requests.HeaderMeaning`).
* A failed send is not noticed: the rest of that answer is dropped and later answers are sent all the same
  (`ServerLoop.Delivered`).
* A submission that passes the exit test before the pool exits can be lost (`ThreadPools.LateSubmissionIsLost`), and so can
  a log pushed before the logger is told to finish (`Loggers.LogBeforeDoneCanBeLost`).
* A larger cache can miss where a smaller one hits, if some resource fits only the larger one
  (`Lru.InclusionNeedsFittingSizes`); `LruInclusion.InclusionExactly` says after which runs it does not.

## Model

| member | source | states |
|---|---|---|
| `Strings.Split` | src/http/http_utils.cpp:89-107 | The loop ends, with the unread rest as its measure, and returns the tokens of the string; an empty string has none, whatever the delimiter |
| `Strings.EmptyDelimiterStays` | src/http/http_utils.cpp:98-101 | An empty delimiter is found where the search starts, so that the loop makes no headway on a non-empty string |
| `Strings.Join` | src/http/http_utils.cpp:109-122 | The loop returns the tokens with the delimiter between them |
| `Strings.SplitJoinExactly` | src/http/http_utils.cpp:89-122 | For every non-empty delimiter: splitting undoes joining, on all delimiter-free tokens of which the last is not empty, if and only if no proper prefix of the delimiter is also its suffix |
| `Strings.SplitTerminated` | src/http/http_utils.cpp:89-107 | Delimiter-free tokens that are each terminated, and then an unterminated last one, split back into exactly those |
| `Strings.JoinOfSplit` | src/http/http_utils.cpp:89-122 | For every non-empty string, joining its tokens gives it back, or gives it back short of exactly one trailing delimiter |
| `Strings.JoinOfSplitDropsFinalDelimiter` | src/http/http_utils.cpp:89-122 | For a border-free delimiter, the delimiter is lost exactly when the string ends with it |
| `Strings.TokensFree` | src/http/http_utils.cpp:89-107 | No token holds the delimiter |
| `Strings.FormatMeaning` | src/http/http_utils.cpp:124-138 | Any text is spaces, bare text and spaces, and formatted it is the bare text letter by letter in upper case |
| `Strings.FormatAlike` | src/http/http_utils.cpp:124-138 | Formatted text equals a word in upper case if and only if it is that word up to case and outer spaces |
| `Buffers.PopTill` | src/core/buffer.cpp:37-46 | What is popped and what stays make up the old buffer; what is popped ends with the first occurrence of the target; nothing is popped exactly when there is none |
| `Buffers.Buffer.Append` | src/core/buffer.cpp:17-27 | New bytes go behind the old ones |
| `Buffers.Buffer.FindAndPopTill` | src/core/buffer.cpp:37-46 | Result and new buffer are those of `PopTill` |
| `Buffers.PopOfFramed` | src/core/buffer.cpp:37-46 | A message that ends at its first target is popped whole, whatever bytes follow it |
| `Buffers.PoppedPassesFormatCheck` | src/http/request.cpp:22-33 | Every string popped up to a blank line splits into at least two lines, the last empty and no other empty except possibly the first, and is exactly those lines terminated |
| `Requests.ScanHeaderLine` | src/http/header.cpp:22-33 | The line constructor, token by token, computes `ParseHeader` |
| `Requests.HeaderMeaning` | src/http/header.cpp:22-33 | The line is cut at its first colon and a final colon of the value is lost; a line without a colon, or whose first colon is its end, is refused |
| `Requests.HeaderRoundTripExactly` | src/http/header.cpp:22-53 | A printed header is read back if and only if its key has no colon and its value is non-empty and does not end in one |
| `Requests.ParsedHeaderIsPart` | src/http/header.cpp:22-53 | Printing a header that was read gives back a prefix of its line |
| `Requests.ReadHeaders` | src/http/request.cpp:35-47 | All lines are read in order, and the whole is refused exactly when some line is |
| `Requests.MethodExactly` | src/http/http_utils.cpp:22-31 | A word is GET, or HEAD, exactly when it is that up to case and outer spaces |
| `Requests.VersionExactly` | src/http/http_utils.cpp:33-39 | A word is the version exactly when it is HTTP/1.1 up to case and outer spaces |
| `Requests.RoutedExactly` | src/http/request.cpp:77-84 | The empty URL and every URL that ends in a slash get the index page appended, and no other |
| `Requests.RequestLineExactly` | src/http/request.cpp:65-85 | A request line is read exactly when it has three words, the first GET or HEAD and the last HTTP/1.1, and with that method and the routed URL |
| `Requests.RequestReadExactly` | src/http/request.cpp:21-49 | A text is read exactly when it has at least two lines, the last empty, a request line that can be read, and an inner colon in every other line |
| `Requests.KeepAliveExactly` | src/http/request.cpp:87-97 | A header asks for keep-alive exactly when it is Connection: Keep-Alive up to case and outer spaces of key and value |
| `Requests.ClosesUnlessAsked` | src/http/request.cpp:87-97 | The connection is to be closed if and only if no header is, up to case and outer spaces of key and value, Connection: Keep-Alive |
| `Requests.Request.constructor` | src/http/request.cpp:21-49 | The mutating constructor leaves exactly the parsed request, or an invalid one |
| `Requests.Request.ParseRequestLine` | src/http/request.cpp:65-85 | Three space-separated words, a known method and version, and default routing, or failure |
| `Requests.Request.ParseHeaderLines` | src/http/request.cpp:35-47 | The header loop keeps the headers in order and the close flag, and fails at the first bad line |
| `Requests.Request.ScanHeader` | src/http/request.cpp:87-97 | The close flag is lowered exactly by a header that is Connection: Keep-Alive up to case and outer spaces |
| `RequestLaws.RequestRoundTripExactly` | src/http/request.cpp:21-97 | For every GET or HEAD, URL and header list: parsing the printed request gives back method, default-routed URL, headers in order and close flag if and only if the URL has no space and no line break and every header is plain and without a line break |
| `RequestLaws.PrintedIsFramed` | src/core/buffer.cpp:37-46 | A printable request ends at its first blank line, so the read buffer yields it as one message |
| `RequestLaws.PrintedMethodRead` | src/http/request.cpp:65-85 | Whatever URL and headers go with it, a printed request that is read at all is read with the method printed |
| `Responses.NumberOfDecimal` | src/http/response.cpp:42-43 | A printed length is read back as that number |
| `Responses.Response.constructor` | src/http/response.cpp:30-54 | Status line, server, connection and length headers, and a content type for an existing file with an extension |
| `Responses.Response.Serialize` | src/http/response.cpp:56-66 | Appends the status line, the headers in order and the blank line to the buffer |
| `Responses.Response.ChangeHeader` | src/http/response.cpp:70-78 | The first header of that key gets the new value and nothing else changes; without one nothing changes, and the result says so |
| `Delivery.StreamRecoveredExactly` | src/http/response.cpp:30-78 | For any sequence of messages whose heads announce their bodies: the client that cuts at blank lines, reads Content-Length and knows its methods recovers exactly the heads and bodies sent if and only if no HEAD came with a body |
| `Delivery.HeadAnnounces` | src/http/response.cpp:56-66 | A printed head whose headers are simple ends at its first blank line, and the client finds its Content-Length |
| `Delivery.HeadRead` | src/http/response.cpp:56-66 | The first line of a printed head is its status line, and the client finds under each key the value of the first header with that key, and nothing under others |
| `Lru.EvictsShortestPrefix` | src/core/cache.cpp:82-86 | Eviction drops exactly the shortest least-recent prefix that makes room |
| `Lru.RunIsFittingHistory` | src/core/cache.cpp:58-92 | After any run of load-else-insert accesses the cache holds exactly the longest most recent part of the access history that fits |
| `Lru.LargerCacheIncludesSmaller` | src/http/http_server.cpp:78-84 | Over every run, a larger cache holds all that a smaller one holds, as its most recent part, if each resource fits both or neither |
| `Lru.InclusionNeedsFittingSizes` | src/core/cache.cpp:72-92 | A run in which a resource that only fits the larger cache makes it miss where the smaller one hits |
| `LruInclusion.InclusionExactly` | src/core/cache.cpp:72-92 | For resources of any size and after any run, the larger cache holds all that the smaller one holds if and only if, in the access history, all that fits the larger one from the oldest entry on that the smaller one has room for fits the larger one together |
| `LruCache.Cache.constructor` | src/core/cache.cpp:48-52 | Two sentinels linked to each other, holding nothing |
| `LruCache.Cache.RemoveFromList` | src/core/cache.cpp:111-117 | The neighbours of a node are linked to each other: the chain without that node, links still mutually inverse |
| `LruCache.Cache.AppendToListTail` | src/core/cache.cpp:119-126 | The chain with the node before the tailer, links still mutually inverse |
| `LruCache.Cache.EvictOne` | src/core/cache.cpp:101-109 | The least recent entry goes from list, map and occupancy, which does not wrap |
| `LruCache.Cache.TryLoad` | src/core/cache.cpp:58-70 | A hit appends the cached bytes and makes the entry the most recent; a miss changes nothing; the cache stays valid |
| `LruCache.Cache.MakeRoom` | src/core/cache.cpp:82-86 | The eviction loop is `Evicted`, and `capacity_ - occupancy_` never wraps in it |
| `LruCache.Cache.TryInsert` | src/core/cache.cpp:72-92 | What is there already or can never fit is refused; else the entry is appended after the eviction, and the cache stays valid |
| `LruCache.Cache.Clear` | src/core/cache.cpp:94-99 | Nothing is left, and the cache is valid |
| `LruCache.SortedMeans` | src/include/core/cache.h:31-37 | The time stamps of a valid cache do not decrease toward the tail, nor exceed the clock |
| `LruCache.IndexCut` | src/core/cache.cpp:101-109 | A list without one node belongs to the map without that node's key |
| `Server.ServeMore` | src/http/http_server.cpp:31-99 | Serving a stream is serving its first part and carrying on with the second |
| `Server.ChunkingIrrelevant` | src/http/http_server.cpp:19-104 | However one stream is cut into wake-ups, the same bytes are sent, the connection ends or not alike, and the same bytes wait |
| `Server.EndOfStreamExactly` | src/http/http_server.cpp:24-30 | With the end of the stream in the last wake-up, the replies are those of the whole stream if and only if the connection was gone already or no complete request was waiting |
| `Server.PipelinedInOrder` | src/http/http_server.cpp:34-98 | Framed requests sent back to back are answered in order, up to the first that ends the connection |
| `ServerLaws.HeadBodyExactly` | src/http/http_server.cpp:57-62 | A HEAD is answered with a body if and only if it names an existing CGI program that prints something |
| `ServerLaws.ReplyDeliverable` | src/http/http_server.cpp:36-90 | The head of every reply frames itself and announces the length of its body, or of the body that HEAD leaves out |
| `ServerLaws.ClientRecoversAnswers` | src/http/http_server.cpp:19-104 | For every list of GET and HEAD requests, of any URLs and headers, each of which ends at its first blank line: the client, knowing the methods it sent, recovers exactly the answers, in order, whatever bytes they hold, if and only if no answered HEAD asked for a talking CGI program |
| `Answers.CgiExactly` | src/http/cgier.cpp:29-40 | A path is a CGI request exactly when it mentions cgi-bin, and its program is the path up to the first & after that |
| `Answers.MimeExactly` | src/http/response.cpp:44-50 | A path has a content type exactly when it has a dot, and then that of the text after the last one, up to case and outer spaces |
| `Answers.PlainHeadRead` | src/http/response.cpp:30-66 | From the head of a reply the client reads its status line, whether the connection is kept, the length, the content type if there is one, and the server |
| `Answers.AnswerExactly` | src/http/http_server.cpp:36-90 | For every text, read from the bytes: 400 for what cannot be read, 404 for a missing file or program, both last and without a body; otherwise 200, kept open as asked, with length, type and body of the file (no body for HEAD) or with length and output of the program |
| `Answers.StatusExactly` | src/http/http_server.cpp:36-74 | For every text, the first line of the reply is that of 400 if and only if it cannot be read, that of 404 if and only if it can and its file or program is missing, and that of 200 if and only if it is there |
| `Answers.PrintedRequestAnswered` | src/http/http_server.cpp:36-90 | A printed request is answered in that way for the method and routed URL printed, and kept open exactly when one of its headers asks for it |
| `Connections.Connection.Recv` | src/core/connection.cpp:66-93 | All bytes up to the call that ends the drain are appended; the peer is gone unless that call would block |
| `Connections.ReceivedIs` | src/core/connection.cpp:66-93 | What is received is the data of all calls, in order, and nothing else |
| `Connections.Connection.Send` | src/core/connection.cpp:95-114 | Through any partial writes and retries the whole buffer is sent and cleared; only if the socket fails for good before all is taken is it cut, after exactly what there was room for |
| `ServerLoop.HonestKept` | src/http/http_server.cpp:78-84 | Loads and insertions keep the cache honest: it holds nothing but what the files hold |
| `ServerLoop.LoadThroughCache` | src/http/http_server.cpp:78-84 | The file's bytes come back whatever the cache holds, and the cache makes one access of `Lru.Accessed` |
| `ServerLoop.ChangedLength` | src/http/http_server.cpp:57-62 | Putting in the length afterwards gives the headers of a response of that length |
| `ServerLoop.DeliveredExactly` | src/core/connection.cpp:95-114 | All the bytes of these replies go out if and only if the socket fails during none of them before all of it is taken |
| `ServerLoop.ProcessHttpRequest` | src/http/http_server.cpp:19-104 | Whatever the cache holds and however large it is, what goes into the socket, the bytes left and the fate of the connection are those of the cacheless `Serve` on the bytes received; all the answers are sent if and only if the socket fails during none of them |
| `ServerRuns.SentIsServed` | src/http/http_server.cpp:19-104 | A chain of wake-ups as `ProcessHttpRequest` makes them, from a new connection on, has sent exactly what the socket lets through of the answers to the bytes received, whatever their portions |
| `ServerRuns.LiveOut` | src/http/http_server.cpp:19-104 | A real connection driven through any drains, each with its own or a shared cache of any honest contents and any capacity, makes such a chain |
| `ServerRuns.ServeConnection` | src/http/http_server.cpp:19-104 | Over its whole life, through any wake-ups and any honest caches, a real connection is sent what its socket lets through of the answers of the cacheless `Serve` to the bytes received, and all of them if and only if the socket fails during none |
| `ServerRuns.SentDependsOnlyOnReceived` | src/http/http_server.cpp:19-104 | Two chains of wake-ups that received the same bytes have sent the same bytes, however portioned, with or without an end of stream of its own, on sockets that behave alike or let everything through |
| `ServerRuns.LastBytesExactly` | src/http/http_server.cpp:24-30 | Bytes that arrive with the end of the stream are not answered; nothing is lost by that if and only if the connection was gone already or no complete request was waiting |
| `Timers.EmplaceMeaning` | src/core/timer.cpp:87-99 | A new timer joins the ordered queue unless its expiry is taken; then the queue is unchanged |
| `Timers.EraseMeaning` | src/core/timer.cpp:101-114 | Exactly the timer of that expiry leaves the queue |
| `Timers.DeadlineExact` | src/core/timer.cpp:32-55 | The armed deadline is the requested time if that is to come, and otherwise the descriptor is disarmed |
| `Timers.PruneExact` | src/core/timer.cpp:145-165 | Under an advancing clock, pruning takes an ordered prefix with every timer due at entry and none that was not due when checked |
| `Timers.ScanDue` | src/core/timer.cpp:148-153 | The scan stops at the first timer that is not due when checked |
| `Timers.NextExpireIsLeast` | src/core/timer.cpp:136-141 | The cached expiry of an ordered queue is its minimum, and 0 for an empty one |
| `Timers.Timer.Rearm` | src/core/timer.cpp:93-97 | After it, the cached expiry is the least one and the descriptor is armed at it exactly if it was in the future when set |
| `Timers.Timer.AddSingleTimer` | src/core/timer.cpp:87-99 | The queue after `Emplace`, with cached expiry and deadline in step |
| `Timers.Timer.RemoveSingleTimer` | src/core/timer.cpp:101-114 | The queue after `Erase`, and whether the expiry was there |
| `Timers.Timer.RefreshSingleTimer` | src/core/timer.cpp:116-133 | The timer found by expiry is replaced by a new one with its callback, or nothing happens |
| `Timers.Timer.PruneExpiredTimer` | src/core/timer.cpp:145-165 | Expired and remaining timers together are the old queue, in order |
| `Loopers.Looper.AddConnection` | src/core/looper.cpp:59-71 | The connection is entered, a timer armed and filed, none of them over an existing entry |
| `Loopers.Looper.RefreshConnection` | src/core/looper.cpp:73-87 | The activity is noted whatever the lookup gives, and the tables are those after `Refreshed`, for a filing that overwrites and for one that does not |
| `Loopers.Looper.DeleteConnection` | src/core/looper.cpp:89-106 | The connection, its filed timer and the queued timer of that expiry go |
| `Lifetimes.StepKeeps` | src/core/looper.cpp:28-106 | Every step of loop thread, acceptors and clock keeps the correspondence of connections and timers, the order of the queues and the safety of the ready list; only a refresh needs to overwrite |
| `LifetimeLaws.AlwaysInv` | src/core/looper.cpp:28-106 | The invariant holds in every state reached with refreshes that overwrite, or, as written, without a refresh |
| `LifetimeLaws.FiredTimerDeletesItsOwn` | src/core/timer.cpp:167-177 | In every run a fired timer deletes exactly the generation it was armed for, idle for at least the expiration; its lookup misses the queue, which stays as it is |
| `LifetimeLaws.CallbacksFindTheirConnection` | src/core/looper.cpp:28-52 | In every run, as written or not and whatever expiries collide, each connection still to be called back in this round is there and of the same generation; `Rounds.RoundsAreComplete` says which those are |
| `Rounds.RoundsAreComplete` | src/core/looper.cpp:28-52 | In every run, those called back since the last poll, followed by those still to come, are what it reported, in order; the queue is pruned if and only if the timer was reported, after all of them; those fired, followed by those still to fire, are what was pruned; and between rounds nothing is left over |
| `Rounds.CalledIsRefreshed` | src/core/acceptor.cpp:61-66 | Whoever is called back is the one that the refresh counts as active, and no other |
| `LifetimeLaws.PruneSparesTheActive` | src/core/timer.cpp:145-165 | Pruning takes the timer of every connection idle long enough when it starts, and of none active within the expiration when it ends |
| `LifetimeLaws.OneTimerEach` | src/core/looper.cpp:59-106 | In every run, connections, filed timers and existing timers are in one-to-one correspondence, and each timer expires at last activity plus the expiration |
| `LifetimeLaws.LeavesOnlyByItsOwn` | src/core/looper.cpp:89-106 | A connection leaves only when its own handler closes it or its own timer fires |
| `LifetimeLaws.AddStepsAreAddConnection` | src/core/looper.cpp:59-71 | The three steps of adding, with nothing between them, are `AddConnection` |
| `LifetimeLaws.PruneStepIsPruneExpired` | src/core/timer.cpp:145-165 | What `PruneExpiredTimer` takes, reading the clock anew for each timer, is a pruning step of the machine |
| `LifetimeLaws.AddTimerExactly` | src/core/timer.cpp:92-92 | Arming a timer keeps the invariant if and only if no queued timer has that expiry |
| `LifetimeLaws.RefreshExactly` | src/core/timer.cpp:116-133 | An overwriting refresh keeps the invariant if and only if no other queued timer has the new expiry |
| `LifetimeLaws.AsWrittenExactly` | src/core/looper.cpp:82-82 | With the insertion as written, a step breaks the invariant if and only if it is a refresh |
| `AsWritten.StepKept` | src/core/looper.cpp:28-106 | With the insertion as written, every step keeps what is then true of connections, timers and those that have left |
| `AsWritten.AlwaysKept` | src/core/looper.cpp:28-106 | That holds in every reachable state as written |
| `AsWritten.RefreshLookup` | src/core/looper.cpp:78-83 | As written, a refresh finds the timer of its connection if and only if it has not been refreshed in a later millisecond than accepted, and else finds none |
| `AsWrittenLaws.OneOwnTimer` | src/core/looper.cpp:59-106 | In every run as written, each connection has exactly one timer of its generation, which expires the expiration after the first refresh in a later millisecond than the acceptance, or else after the acceptance |
| `AsWrittenLaws.OthersAreOrphans` | src/core/looper.cpp:89-106 | In every run as written, every other timer is of a generation that left otherwise than by it, and that had been refreshed later than accepted or was expelled by another's timer when this one was pruned and still to run |
| `AsWrittenLaws.CloseLeavesOrphanExactly` | src/core/looper.cpp:89-106 | In every run as written, a connection closed by its handler leaves its timer behind if and only if it had been refreshed later than accepted |
| `AsWrittenLaws.FireExpelsAnotherExactly` | src/core/timer.cpp:167-177 | In every run as written, a fired timer deletes the connection that has its descriptor and no other; that is another generation if and only if the timer is an orphan and the descriptor in use; and exactly which queued timer is lost with it |
| `AsWrittenLaws.FireLeavesOrphanExactly` | src/core/timer.cpp:167-177 | In every run as written, an expelled connection leaves its timer behind if and only if another's expelled it and it had been refreshed later than accepted or its own is pruned and still to run |
| `AsWrittenLaws.RefreshMovesExactly` | src/core/looper.cpp:73-87 | In every run as written, a refresh moves the timer of its connection if and only if it is the first in a later millisecond than the acceptance |
| `AsWrittenLaws.PruneCountsFromFirstRefresh` | src/core/timer.cpp:145-165 | In every run as written, pruning takes the own timer of a connection by that first refresh, whatever its last activity |
| `AsWrittenLaws.ExpelledIdleExactly` | src/core/timer.cpp:167-177 | In every run as written, a connection whose own timer fires had been silent for the expiration when that came due if and only if nothing was heard of it after its first later refresh |
| `AsWrittenLaws.NoOrphanWithoutLaterRefresh` | src/core/looper.cpp:73-106 | As long as no connection that left had been refreshed later than accepted, every timer is that of a live connection and none expels another |
| `AsWrittenRuns.AsWrittenExpelsTheNextUser` | src/core/looper.cpp:73-87 | A run, as written, in which the timer of a departed client expels the next user of its descriptor before its time |
| `AsWrittenRuns.AsWrittenExpelsTheActive` | src/core/looper.cpp:73-87 | A run, as written, in which a client heard from at 1 and at 5 is expelled at 11 although the expiration is 10 |
| `AsWrittenRuns.AsWrittenExpelsInChain` | src/core/timer.cpp:167-177 | A run, as written, in which a client that was never refreshed, itself expelled by an orphan, leaves a pruned timer that expels the next one |
| `AsWrittenRuns.CollisionReachable` | src/core/timer.cpp:87-114 | Under either filing, two clients accepted in one millisecond: the second timer is dropped, its lookup finds the first one's, and deleting the second connection removes that |
| `Locks.ProgramDisciplined` | src/core/looper.cpp:54-106 | Whatever calls a thread makes, it takes locks in the order looper, timer, logger and runs timer callbacks with none held |
| `Locks.LockOrder` | src/core/timer.cpp:87-177 | In every reachable state of any number of threads, a lock about to be taken ranks above all its thread holds, no lock has two holders, and callbacks start with nothing held |
| `Locks.NoDeadlock` | src/log/logger.cpp:126-166 | In every reachable state of any number of threads, as long as one is not done, one can step |
| `Locks.NoRaces` | src/core/looper.cpp:54-106 | In every reachable state of any number of threads, whoever is about to access the tables, the timer queue or the log queue holds its lock and is the only one that is |
| `Locks.CallsUse` | src/core/looper.cpp:54-106 | Which of these each call accesses, by the branch it takes |
| `ThreadPools.StepKeeps` | src/core/thread_pool.cpp:16-51 | Every step keeps the queue invariant: a started task is completed or in the hands of exactly one worker |
| `ThreadPools.FirstInFirstOut` | src/core/thread_pool.cpp:21-35 | In every interleaving, started tasks followed by queued ones are the submission order, and none starts twice |
| `ThreadPools.AllDoneExactly` | src/core/thread_pool.cpp:16-51 | Once all workers have returned, every submitted task is completed if and only if none was enqueued after the last return; those that were are the queue |
| `ThreadPools.EnqueuedBeforeExitCompletes` | src/include/core/thread_pool.h:63-78 | If every enqueueing precedes the exit flag, all tasks are completed once all workers have returned |
| `ThreadPools.OnlyTheAdmittedSubmit` | src/include/core/thread_pool.h:65-75 | Once the exit flag is up, exactly those submitters that passed the test before it can still enqueue, each once |
| `ThreadPools.StartInv` | src/core/thread_pool.cpp:16-20 | There are as many workers as asked for, but at least two |
| `ThreadPools.LateSubmissionIsLost` | src/include/core/thread_pool.h:65-75 | A run in which a submission passes the exit test and is never executed |
| `Loggers.WrittenInPushOrder` | src/log/logger.cpp:126-167 | In every interleaving, written logs, the batch in flight and the queue are the push order; the batch is empty at every swap |
| `Loggers.UnwrittenAtExit` | src/log/logger.cpp:146-167 | When the writer has returned, the unwritten logs are exactly those pushed since it last held the mutex; all are written if and only if there are none |
| `Loggers.SwapsWhenDue` | src/log/logger.cpp:149-157 | The writer takes all that is queued, and only when told to finish, with more than a thousand logs waiting, or long after the last flush |
| `Loggers.LogBeforeDoneCanBeLost` | src/log/logger.cpp:113-119 | A run in which a log pushed before the destructor is lost |
| `Balanced.ForwardFindsBlock` | build_support/cpplint.py:1744-1819 | From an opener, the forward scan ends after `k` characters if and only if those are a block of the grammar |
| `Balanced.BackwardFindsBlock` | build_support/cpplint.py:1866-1940 | From a closer, the backward scan ends at `i` if and only if the text from there on is a block |
| `Balanced.ScansAreInverse` | build_support/cpplint.py:1744-1978 | Forward from an opener ends at a closer if and only if backward from that closer ends at that opener |
| `Brackets.FindEndOfExpressionInLine` | build_support/cpplint.py:1744-1819 | The stack loop, with its operator and template branches, computes `ScanEnd` |
| `Brackets.CloseExpression` | build_support/cpplint.py:1822-1863 | The loop over lines returns the place of `Closed` and its line, or the failure triple with the last line looked at |
| `Brackets.FindStartOfExpressionInLine` | build_support/cpplint.py:1866-1940 | The backward stack loop, skipping two-character operators, computes `ScanStart` |
| `Brackets.ReverseCloseExpression` | build_support/cpplint.py:1943-1978 | The backward loop over lines returns the place of `Opened` and its line, or the failure triple with the last line looked at |
| `Brackets.GetTextInside` | build_support/cpplint.py:4891-4921 | The punctuation stack loop returns what stands before the character that empties the stack, or nothing |
| `BracketLaws.CloseFindsBlock` | build_support/cpplint.py:1822-1863 | On any text, across any number of lines, from an opening bracket a place is returned if and only if the text to there is a block; angle brackets do not matter |
| `BracketLaws.MatchersAreInverse` | build_support/cpplint.py:1822-1978 | On any text, across any number of lines, an opening bracket is closed by a closing one if and only if that one is opened by it; angle brackets do not matter |
| `BracketLaws.ClosedThenOpened` | build_support/cpplint.py:1822-1978 | On any text, from wherever an opening bracket is found to be closed the backward matcher returns to it |
| `BracketLaws.InsideIsBlock` | build_support/cpplint.py:4891-4921 | The one-line matcher finds an end if and only if opener, interior and closer are a block, angle brackets or not |
| `BracketLaws.OneLineMatchersAgree` | build_support/cpplint.py:4891-4921 | On any one line the two independent matchers agree, also on failure |
| `AngleLaws.OperatorExactly` | build_support/cpplint.py:1770-1770 | What counts as the operator keyword before an angle bracket |
| `AngleLaws.MachineCounts` | build_support/cpplint.py:1744-1819 | The stack machine, started on pending angle brackets, passes over whole bracket blocks, counts the angle brackets outside them by the role each has on its line, and gives up at a closing bracket or a semicolon |
| `AngleLaws.AngleClosedExactly` | build_support/cpplint.py:1822-1863 | From an angle bracket that opens a template, across any number of lines, the place returned is where that count comes to nothing, and there is none exactly when it never does |
| `MirrorLaws.AngleOpenedExactly` | build_support/cpplint.py:1943-1978 | From an angle bracket that closes a template, the backward matcher returns the place where the count of the text read backwards, with every bracket turned round, comes to nothing, and nothing exactly when it never does |
| `MirrorLaws.StartStepByRole` | build_support/cpplint.py:1866-1940 | A step of the backward matcher is a step of the forward machine in the mirror; an operator is passed over together with the character before it |
| `Preprocessor.NestingState.UpdatePreprocessor` | build_support/cpplint.py:2757-2811 | The stacks after a line: saved at an #if, put back at an #else or #elif, restored and popped at an #endif, unchanged by stray directives |
| `Preprocessor.FileEffect` | build_support/cpplint.py:2757-2811 | A well-nested file has the effect of its lines outside #else and #elif branches, and leaves the preprocessor stack as it was |
| `Preprocessor.DirectiveExactly` | build_support/cpplint.py:2777-2796 | Which lines are directives: spaces, a hash, spaces and one of the words as a whole |
| `Preprocessor.PartHasItsEffect` | build_support/cpplint.py:2777-2793 | Wherever a well-nested file is broken off, also inside branches at any depth, the stack is that of the current part of each open conditional on the stack from before its #if, and one entry is kept for each |
| `Preprocessor.PrefixIsPart` | build_support/cpplint.py:2757-2811 | Every number of first lines of a well-nested file is such a part |
| `Preprocessor.BranchesDoNotShow` | build_support/cpplint.py:2757-2811 | For every well-nested file and every effect of its lines, the final stacks are those of the file with all #else and #elif branches erased |

## Left out

- Liveness: `Exit` and the logger's destructor set flags without the mutex, and a zero timespec disarms the timer, so no eventual wake-up is claimed.
- Data races inside the cache, as assumed above.
- An angle bracket that belongs to an operator, as the place where a matcher is started: the source then goes on with an empty stack.
- The regular expression that locates the start of `_GetTextInside`: the model starts behind the opener that it found.
- What a line does to the nesting stack besides its directive: any function.
- The text of `invalid_reason_`, stream output operators and date formatting.
- CGI processes: what a program prints is a function of the request path; its argument splitting is an instance of `Split`.
- Directories that exist where a file is asked for, unreadable files, and files that change while the server runs.
- Sockets, the poller and network addresses, beyond the oracles described above.
- A looper with `timer_expiration` 0 is modelled in `Loopers` and not in `Lifetimes`, where it would have no timers at all.
- `Loopers.Looper.RefreshConnection`: looks up the filed timer by its old expiry even when that timer object is gone, because freed memory is read as if unchanged.
- `Lifetimes.StepKeeps`: assumes that no timer is created at a queued expiry; what happens otherwise is `AddTimerExactly` and `RefreshExactly`.
- `Strings.Split`: a non-empty string with an empty delimiter, on which the source loop never ends (`EmptyDelimiterStays`).
- `AsWritten.StepKept`: assumes, as `Lifetimes.StepKeeps` does, that no timer is created at a queued expiry.
- `Connections.Connection.Send`: a socket that asks for a retry for ever, on which the source loop never ends.
- `AppendHead` of the buffer, the 503 response, and the delimiter parameter of `Trim`, none of which the server uses.
- `src/db`, `webbench`, the demo programs and the rest of `build_support`, which would only add easy or foreign members.
